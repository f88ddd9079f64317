/** The kernel's own run-time check of the ready queues, which takes nothing for granted about
    the links it follows, proved to accept exactly the queues that are in order. */
module KernelDebug {
  import opened Options
  import opened KernelState
  import opened KernelGraph
  import opened KernelReady
  import opened LinkedLists
  import opened KernelLists

  /** What the check looks at: the queues, and for each process its priority, p_ready and whether
      its slot is in use. */
  datatype Tables = Tables(heads: seq<Ptr>, tails: seq<Ptr>, link: seq<Ptr>,
                           priority: seq<int>, isReady: seq<bool>, used: seq<bool>)

  predicate PtrOk(x: Ptr, n: nat) {
    x.Some? ==> x.value < n
  }

  predicate TablesOk(t: Tables, n: nat) {
    && |t.heads| == |t.tails| == NR_SCHED_QUEUES
    && |t.link| == |t.priority| == |t.isReady| == |t.used| == n
    && (forall q :: 0 <= q < NR_SCHED_QUEUES ==> PtrOk(t.heads[q], n) && PtrOk(t.tails[q], n))
    && (forall p :: 0 <= p < n ==> PtrOk(t.link[p], n))
  }

  ghost predicate QueueFits(t: Tables, n: nat, q: nat, s: seq<Pid>)
    requires TablesOk(t, n)
  {
    forall k :: 0 <= k < |s| ==> s[k] < n && t.isReady[s[k]] && t.priority[s[k]] == q
  }

  /** Heads, tails and links are those of the queues `qs`, on which each process is at its own
      priority, at most once, and every ready process is on one. */
  ghost predicate Sound(t: Tables, n: nat, qs: seq<seq<Pid>>)
    requires TablesOk(t, n)
  {
    && |qs| == NR_SCHED_QUEUES
    && ReadyOk(t.heads, t.tails, t.link, qs, n)
    && (forall q :: 0 <= q < NR_SCHED_QUEUES ==> QueueFits(t, n, q, qs[q]))
    && (forall p :: 0 <= p < n && t.used[p] && t.isReady[p] ==> !OnNone(qs, p))
  }

  /** `w` was visited from `head` on, and `xp` comes next. */
  ghost predicate Walked(head: Ptr, link: seq<Ptr>, w: seq<Pid>, xp: Ptr) {
    && (forall k :: 0 <= k < |w| ==> w[k] < |link|)
    && (forall k :: 0 <= k < |w| - 1 ==> link[w[k]] == Some(w[k + 1]))
    && (if w == [] then xp == head else head == Some(w[0]) && xp == link[w[|w| - 1]])
  }

  lemma WalkedFirst(head: Ptr, link: seq<Ptr>, w: seq<Pid>, xp: Ptr)
    requires Walked(head, link, w, xp)
    ensures w == [] ==> xp == head
  {
  }

  lemma WalkedBack(head: Ptr, link: seq<Ptr>, w: seq<Pid>, xp: Ptr)
    requires Walked(head, link, w, xp) && w != []
    ensures w[|w| - 1] < |link| && link[w[|w| - 1]] == xp
    ensures Walked(head, link, w[..|w| - 1], Some(w[|w| - 1]))
  {
  }

  lemma {:induction false} WalkedIsPrefix(head: Ptr, link: seq<Ptr>, w: seq<Pid>, xp: Ptr, q: seq<Pid>)
    requires Walked(head, link, w, xp) && Chain(head, link, q)
    ensures |w| <= |q| && w == q[..|w|] && xp == if |w| < |q| then Some(q[|w|]) else None
    decreases |w|
  {
    hide Walked;
    WalkedFirst(head, link, w, xp);
    if w != [] {
      var last := |w| - 1;
      WalkedBack(head, link, w, xp);
      WalkedIsPrefix(head, link, w[..last], Some(w[last]), q);
      assert link[q[last]] == After(q, last);
      assert w == w[..last] + [w[last]] && q[..last] + [q[last]] == q[..|w|];
    }
  }

  lemma WalkedAll(head: Ptr, link: seq<Ptr>, w: seq<Pid>)
    requires Walked(head, link, w, None)
    ensures Chain(head, link, w)
  {
  }

  /** The queues before `q` were walked to the end and the first `|w|` places of `q` too. */
  ghost predicate Seen(t: Tables, n: nat, done: seq<seq<Pid>>, w: seq<Pid>, found: seq<bool>)
    requires TablesOk(t, n)
  {
    && |done| <= NR_SCHED_QUEUES && |found| == n
    && (forall e :: 0 <= e < |done| ==>
          Chain(t.heads[e], t.link, done[e]) && t.tails[e] == Last(done[e]) && QueueFits(t, n, e, done[e]))
    && Separate(done + [w])
    && (forall p :: 0 <= p < n ==> (found[p] <==> !OnNone(done + [w], p)))
  }

  /** Whatever the queues are, the walk has followed them. */
  lemma SeenIsSound(t: Tables, n: nat, done: seq<seq<Pid>>, w: seq<Pid>, xp: Ptr, found: seq<bool>, qs: seq<seq<Pid>>)
    requires TablesOk(t, n) && Seen(t, n, done, w, found) && Sound(t, n, qs)
    requires |done| < NR_SCHED_QUEUES ==> Walked(t.heads[|done|], t.link, w, xp)
    ensures done == qs[..|done|]
    ensures |done| < NR_SCHED_QUEUES ==>
              var q := qs[|done|]; |w| <= |q| && w == q[..|w|] && xp == if |w| < |q| then Some(q[|w|]) else None
  {
    forall e | 0 <= e < |done|
      ensures done[e] == qs[e]
    {
      assert Chain(t.heads[e], t.link, qs[e]);
      WalkedIsPrefix(t.heads[e], t.link, done[e], None, qs[e]) by {
        ChainWalked(t.heads[e], t.link, done[e]);
      }
    }
    if |done| < NR_SCHED_QUEUES {
      assert Chain(t.heads[|done|], t.link, qs[|done|]);
      WalkedIsPrefix(t.heads[|done|], t.link, w, xp, qs[|done|]);
    }
  }

  lemma ChainWalked(head: Ptr, link: seq<Ptr>, q: seq<Pid>)
    requires Chain(head, link, q)
    ensures Walked(head, link, q, None)
  {
    if q != [] {
      assert link[q[|q| - 1]] == After(q, |q| - 1);
    }
    forall k | 0 <= k < |q| - 1
      ensures link[q[k]] == Some(q[k + 1])
    {
      assert link[q[k]] == After(q, k);
    }
  }

  /** If the queues are in order, the process just reached passes every test. */
  lemma VisitPasses(t: Tables, n: nat, done: seq<seq<Pid>>, w: seq<Pid>, x: Pid, found: seq<bool>, qs: seq<seq<Pid>>)
    requires TablesOk(t, n) && Seen(t, n, done, w, found) && Sound(t, n, qs) && |done| < NR_SCHED_QUEUES
    requires Walked(t.heads[|done|], t.link, w, Some(x)) && x < n
    ensures t.isReady[x] && t.priority[x] == |done| && !found[x]
    ensures t.link[x] == None ==> t.tails[|done|] == Some(x)
  {
    hide Seen, Sound, Chain, Walked, Separate;
    var d := |done|;
    SeenIsSound(t, n, done, w, Some(x), found, qs);
    SoundQueue(t, n, qs, d, |w|);
    SeenLength(t, n, done, w, found);
    if found[x] {
      FoundWhere(t, n, done, w, found, x);
      NotEarlier(qs, d, |w|);
    }
  }

  lemma SoundQueue(t: Tables, n: nat, qs: seq<seq<Pid>>, d: nat, k: nat)
    requires TablesOk(t, n) && Sound(t, n, qs) && d < NR_SCHED_QUEUES && k < |qs[d]|
    ensures t.tails[d] == Last(qs[d]) && qs[d][k] < n && t.link[qs[d][k]] == After(qs[d], k)
    ensures t.isReady[qs[d][k]] && t.priority[qs[d][k]] == d
    ensures Separate(qs) && |qs| == NR_SCHED_QUEUES
  {
    hide Separate;
    assert Chain(t.heads[d], t.link, qs[d]) && QueueFits(t, n, d, qs[d]);
  }

  lemma NotEarlier(qs: seq<seq<Pid>>, d: nat, k: nat)
    requires Separate(qs) && d < |qs| && k < |qs[d]|
    ensures qs[d][k] !in qs[d][..k]
    ensures forall e :: 0 <= e < d ==> qs[d][k] !in qs[e]
  {
    assert NoDup(qs[d]) && qs[d][k] in qs[d];
  }

  lemma FoundWhere(t: Tables, n: nat, done: seq<seq<Pid>>, w: seq<Pid>, found: seq<bool>, x: Pid)
    requires TablesOk(t, n) && Seen(t, n, done, w, found) && x < n && found[x]
    ensures x in w || exists e :: 0 <= e < |done| && x in done[e]
  {
    var e :| 0 <= e < |done| + 1 && x in (done + [w])[e];
    if e < |done| {
      assert x in done[e];
    }
  }

  lemma EndsPass(t: Tables, n: nat, q: nat, qs: seq<seq<Pid>>)
    requires TablesOk(t, n) && Sound(t, n, qs) && q < NR_SCHED_QUEUES
    ensures t.heads[q] == None <==> t.tails[q] == None
    ensures t.tails[q].Some? ==> t.link[t.tails[q].value] == None
  {
    var s := qs[q];
    assert Chain(t.heads[q], t.link, s) && t.tails[q] == Last(s);
    if s != [] {
      assert t.link[s[|s| - 1]] == After(s, |s| - 1);
    }
  }

  /** One more process is marked as found. */
  lemma SeenMore(t: Tables, n: nat, done: seq<seq<Pid>>, w: seq<Pid>, found: seq<bool>, x: Pid)
    requires TablesOk(t, n) && Seen(t, n, done, w, found) && x < n && !found[x]
    ensures Seen(t, n, done, w + [x], found[x := true])
  {
    assert OnNone(done + [w], x);
    assert (done + [w])[|done| := w + [x]] == done + [w + [x]];
    assert (done + [w])[|done|] == w;
    SeparatePush(done + [w], |done|, x, w + [x]);
    forall p | 0 <= p < n
      ensures found[x := true][p] <==> !OnNone(done + [w + [x]], p)
    {
      assert p in w + [x] <==> p in w || p == x;
      forall e | 0 <= e < |done| + 1
        ensures p in (done + [w + [x]])[e] <==> p in (done + [w])[e] || (e == |done| && p == x)
      {
      }
      if p == x {
        assert p in (done + [w + [x]])[|done|];
      }
    }
  }

  lemma EmptyQueueToo(a: seq<seq<Pid>>)
    ensures Separate(a) ==> Separate(a + [[]])
    ensures forall p :: OnNone(a, p) <==> OnNone(a + [[]], p)
  {
    var b := a + [[]];
    assert forall e :: 0 <= e < |b| ==> b[e] == if e < |a| then a[e] else [];
    forall p
      ensures OnNone(a, p) <==> OnNone(b, p)
    {
    }
  }

  /** One more queue is finished. */
  lemma SeenQueue(t: Tables, n: nat, done: seq<seq<Pid>>, w: seq<Pid>, found: seq<bool>)
    requires TablesOk(t, n) && Seen(t, n, done, w, found) && |done| < NR_SCHED_QUEUES
    requires Walked(t.heads[|done|], t.link, w, None)
    requires t.tails[|done|] == Last(w) && QueueFits(t, n, |done|, w)
    ensures Seen(t, n, done + [w], [], found)
  {
    hide Walked, Separate, OnNone;
    WalkedAll(t.heads[|done|], t.link, w);
    EmptyQueueToo(done + [w]);
  }

  /** check_runqueues on one queue. */
  method CheckQueue(t: Tables, n: nat, q: nat, found: seq<bool>, ghost done: seq<seq<Pid>>)
    returns (ok: bool, found': seq<bool>, ghost w: seq<Pid>)
    requires TablesOk(t, n) && q == |done| < NR_SCHED_QUEUES && Seen(t, n, done, [], found)
    ensures ok ==> Seen(t, n, done + [w], [], found')
    ensures !ok ==> forall qs :: !Sound(t, n, qs)
  {
    hide Seen, Sound;
    found', w := found, [];
    SeenLength(t, n, done, [], found);
    if t.heads[q].Some? != t.tails[q].Some? || (t.tails[q].Some? && t.link[t.tails[q].value] != None) {
      forall qs | Sound(t, n, qs) ensures false {
        EndsPass(t, n, q, qs);
      }
      return false, found', w;
    }
    var xp := t.heads[q];
    while xp.Some?
      invariant PtrOk(xp, n) && |found'| == n && Seen(t, n, done, w, found')
      invariant Walked(t.heads[q], t.link, w, xp) && QueueFits(t, n, q, w)
      invariant w != [] && xp == None ==> t.tails[q] == Last(w)
      decreases Unmarked(found')
    {
      var x := xp.value;
      if !t.isReady[x] || t.priority[x] != q || found'[x] || (t.link[x] == None && t.tails[q] != Some(x)) {
        forall qs | Sound(t, n, qs) ensures false {
          VisitPasses(t, n, done, w, x, found', qs);
        }
        return false, found', w;
      }
      SeenMore(t, n, done, w, found', x);
      MarkOne(found', x);
      found' := found'[x := true];
      w := w + [x];
      xp := t.link[x];
    }
    SeenQueue(t, n, done, w, found');
    ok := true;
  }

  function Unmarked(found: seq<bool>): nat {
    if found == [] then 0 else (if found[0] then 0 else 1) + Unmarked(found[1..])
  }

  lemma {:induction false} MarkOne(found: seq<bool>, x: nat)
    requires x < |found| && !found[x]
    ensures Unmarked(found[x := true]) < Unmarked(found)
  {
    if x == 0 {
      assert found[0 := true][1..] == found[1..];
    } else {
      assert found[x := true][1..] == found[1..][x - 1 := true];
      MarkOne(found[1..], x - 1);
    }
  }

  /** The check accepts the queues if and only if they are in order. */
  method CheckRunqueues(t: Tables, n: nat) returns (ok: bool)
    requires TablesOk(t, n)
    ensures ok <==> exists qs :: Sound(t, n, qs)
  {
    hide Seen, Sound;
    var found := seq(n, _ => false);
    ghost var done: seq<seq<Pid>> := [];
    NothingSeen(t, n);
    var q := 0;
    while q < NR_SCHED_QUEUES
      invariant q == |done| <= NR_SCHED_QUEUES && Seen(t, n, done, [], found)
    {
      ghost var w;
      ok, found, w := CheckQueue(t, n, q, found, done);
      if !ok {
        return;
      }
      done := done + [w];
      q := q + 1;
    }
    SeenLength(t, n, done, [], found);
    var xp := 0;
    while xp < n
      invariant xp <= n
      invariant forall p :: 0 <= p < xp && t.used[p] && t.isReady[p] ==> found[p]
    {
      if t.used[xp] && t.isReady[xp] && !found[xp] {
        forall qs | Sound(t, n, qs) ensures false {
          ReadyIsFound(t, n, done, found, qs, xp);
        }
        return false;
      }
      xp := xp + 1;
    }
    AllSeen(t, n, done, found);
    ok := true;
  }

  lemma NothingSeen(t: Tables, n: nat)
    requires TablesOk(t, n)
    ensures Seen(t, n, [], [], seq(n, _ => false))
  {
  }

  lemma SeenLength(t: Tables, n: nat, done: seq<seq<Pid>>, w: seq<Pid>, found: seq<bool>)
    requires TablesOk(t, n) && Seen(t, n, done, w, found)
    ensures |found| == n
  {
  }

  lemma ReadyIsFound(t: Tables, n: nat, done: seq<seq<Pid>>, found: seq<bool>, qs: seq<seq<Pid>>, p: Pid)
    requires TablesOk(t, n) && Seen(t, n, done, [], found) && |done| == NR_SCHED_QUEUES && Sound(t, n, qs)
    requires p < n && t.used[p] && t.isReady[p]
    ensures |found| == n && found[p]
  {
    SeenIsSound(t, n, done, [], None, found, qs);
    var e :| 0 <= e < |qs| && p in qs[e];
    assert (done + [[]])[e] == qs[e];
  }

  lemma AllSeen(t: Tables, n: nat, done: seq<seq<Pid>>, found: seq<bool>)
    requires TablesOk(t, n) && Seen(t, n, done, [], found) && |done| == NR_SCHED_QUEUES
    requires |found| == n && forall p :: 0 <= p < n && t.used[p] && t.isReady[p] ==> found[p]
    ensures Sound(t, n, done)
  {
    var b := done + [[]];
    assert forall e :: 0 <= e < |done| ==> b[e] == done[e];
    forall p | 0 <= p < n && t.used[p] && t.isReady[p]
      ensures !OnNone(done, p)
    {
      assert found[p];
    }
  }

  /** In every state that satisfies the invariant the check passes, p_ready being set for the
      processes without flags. */
  lemma InvariantPasses(i: Ipc, r: Rq, t: Tables)
    requires WfIpc(i) && WfRq(r, |i.procs|) && ReadyExact(i, r, -1)
    requires TablesOk(t, |i.procs|) && ReadyOk(t.heads, t.tails, t.link, r.ready, |i.procs|)
    requires forall p :: 0 <= p < |i.procs| ==> t.priority[p] == r.slices[p].priority && t.isReady[p] == Runnable(i, p)
    ensures Sound(t, |i.procs|, r.ready)
  {
    hide ReadyOk;
    forall p | 0 <= p < |i.procs| && t.used[p] && t.isReady[p]
      ensures !OnNone(r.ready, p)
    {
      assert IsPid(i, p);
      assert p in r.ready[r.slices[p].priority];
    }
  }
}
