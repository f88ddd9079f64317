/** The kernel as it is coded: tables updated in place, linked lists edited through pointers to
    pointers, loops that walk them.  Each method is proved to do to the abstract state exactly
    what the function of the same name in KernelState or KernelSteps says. */
module KernelLists {
  import opened Options
  import opened KernelState
  import opened KernelGraph
  import opened KernelNotices
  import opened KernelHistory
  import opened KernelReady
  import opened KernelInvariant
  import opened LinkedLists
  import S = KernelState
  import T = KernelSteps
  import R = KernelRuns
  import opened KernelTheorems

  ghost predicate ListsOk(heads: seq<Ptr>, link: seq<Ptr>, qs: seq<seq<Pid>>, n: nat) {
    |link| == n && Chains(heads, link, qs) && Separate(qs)
  }

  function Last(q: seq<Pid>): Ptr {
    if q == [] then None else Some(q[|q| - 1])
  }

  ghost predicate ReadyOk(heads: seq<Ptr>, tails: seq<Ptr>, link: seq<Ptr>, qs: seq<seq<Pid>>, n: nat) {
    && ListsOk(heads, link, qs, n)
    && |tails| == |qs|
    && (forall q :: 0 <= q < |qs| ==> tails[q] == Last(qs[q]))
  }

  lemma HeadsAgree(heads: seq<Ptr>, tails: seq<Ptr>, link: seq<Ptr>, qs: seq<seq<Pid>>, n: nat)
    requires ReadyOk(heads, tails, link, qs, n)
    ensures |heads| == |qs| && |tails| == |qs| && |link| == n
    ensures forall q :: 0 <= q < |qs| ==> heads[q] == if qs[q] == [] then None else Some(qs[q][0])
  {
    forall q | 0 <= q < |qs|
      ensures heads[q] == if qs[q] == [] then None else Some(qs[q][0])
    {
      assert Chain(heads[q], link, qs[q]);
    }
  }

  /** The first queue from `q` on that has a head. */
  function FirstHead(heads: seq<Ptr>, q: nat): (r: nat)
    requires q <= |heads|
    ensures q <= r <= |heads| && (r < |heads| ==> heads[r].Some?)
    decreases |heads| - q
  {
    if q == |heads| || heads[q].Some? then q else FirstHead(heads, q + 1)
  }

  /** What pick_proc picks and whom it bills, from the heads alone. */
  function PickHead(i: Ipc, heads: seq<Ptr>, next: Pid, bill: Pid): (r: (Pid, Pid))
    requires WfIpc(i) && forall q :: 0 <= q < |heads| && heads[q].Some? ==> heads[q].value < |i.procs|
    ensures next < |i.procs| && bill < |i.procs| ==> r.0 < |i.procs| && r.1 < |i.procs|
  {
    var q := FirstHead(heads, 0);
    if q == |heads| then (next, bill) else
      var p := heads[q].value;
      (p, if i.privs[i.procs[p].priv].billable then p else bill)
  }

  lemma {:induction false} HeadsBusy(heads: seq<Ptr>, ready: seq<seq<Pid>>, q: nat)
    requires |heads| == |ready| && q <= |heads|
    requires forall k :: 0 <= k < |ready| ==> heads[k] == if ready[k] == [] then None else Some(ready[k][0])
    ensures FirstHead(heads, q) == FirstBusy(ready, q)
    decreases |heads| - q
  {
    if q < |heads| && heads[q] == None {
      HeadsBusy(heads, ready, q + 1);
    }
  }

  lemma PickSame(i: Ipc, r: Rq, heads: seq<Ptr>, tails: seq<Ptr>, link: seq<Ptr>)
    requires WfIpc(i) && WfRq(r, |i.procs|) && ReadyOk(heads, tails, link, r.ready, |i.procs|)
    ensures |heads| == NR_SCHED_QUEUES
    ensures forall q :: 0 <= q < |heads| && heads[q].Some? ==> heads[q].value < |i.procs|
    ensures var (next, bill) := PickHead(i, heads, r.next, r.bill);
            S.PickProc(i, r) == r.(next := next, bill := bill)
  {
    hide ReadyOk;
    HeadsAgree(heads, tails, link, r.ready, |i.procs|);
    HeadsBusy(heads, r.ready, 0);
  }

  lemma RelinkHeads(i: Ipc, r: Rq, l: Links, q: nat, p: Pid, front: bool)
    requires WfIpc(i) && WfRq(r, |i.procs|) && ReadyOk(l.heads, l.tails, l.link, r.ready, |i.procs|)
    requires Linkable(l, q, p) && p < |i.procs|
    ensures var heads := Relink(l, q, p, front).heads;
            forall k :: 0 <= k < |heads| && heads[k].Some? ==> heads[k].value < |i.procs|
  {
    hide ReadyOk, S.PickProc;
    PickSame(i, r, l.heads, l.tails, l.link);
  }

  /** enqueue before it picks the next process. */
  function Added(r: Rq, p: Pid): Rq
    requires p < |r.slices| && forall x :: 0 <= x < |r.slices| ==> 0 <= r.slices[x].priority < |r.ready|
    requires |r.ready| == NR_SCHED_QUEUES && 0 <= r.slices[p].maxPriority < NR_SCHED_QUEUES
  {
    var r1 := Reschedule(r, p);
    var q := r1.slices[p].priority;
    r1.(ready := r1.ready[q := if r.slices[p].ticksLeft > 0 then [p] + r1.ready[q] else r1.ready[q] + [p]])
  }

  lemma EnqueueParts(i: Ipc, r: Rq, p: Pid)
    requires WfIpc(i) && WfRq(r, |i.procs|) && p < |i.procs|
    ensures 0 <= Reschedule(r, p).slices[p].priority < |r.ready| && Reschedule(r, p).ready == r.ready
    ensures WfRq(Added(r, p), |i.procs|) && Enqueue(i, r, p) == PickProc(i, Added(r, p))
  {
  }

  lemma DequeueParts(i: Ipc, r: Rq, current: Pid, p: Pid, k: nat)
    requires WfIpc(i) && WfRq(r, |i.procs|) && p < |i.procs|
    requires var q := r.ready[r.slices[p].priority];
             k <= |q| && (forall j :: 0 <= j < k ==> q[j] != p) && (k < |q| ==> q[k] == p)
    ensures var q := r.slices[p].priority;
            && 0 <= q < |r.ready|
            && (k == |r.ready[q]| ==> Dequeue(i, r, current, p) == r)
            && (k < |r.ready[q]| ==>
                  var r1 := r.(ready := r.ready[q := r.ready[q][..k] + r.ready[q][k + 1..]]);
                  && WfRq(r1, |i.procs|)
                  && Dequeue(i, r, current, p) == if p == current || p == r.next then PickProc(i, r1) else r1)
  {
    var q := r.slices[p].priority;
    if k < |r.ready[q]| {
      WithoutAt(r.ready[q], k);
    }
  }

  lemma ReadyPushFirst(heads: seq<Ptr>, tails: seq<Ptr>, link: seq<Ptr>, qs: seq<seq<Pid>>, n: nat, d: nat, p: Pid)
    requires ReadyOk(heads, tails, link, qs, n) && d < |qs| && p < n && OnNone(qs, p) && qs[d] == []
    ensures ReadyOk(heads[d := Some(p)], tails[d := Some(p)], link[p := None], qs[d := [p]], n)
  {
    assert Chain(heads[d], link, qs[d]);
    assert [p] + qs[d] == [p];
    ChainsPushFront(heads, link, qs, d, p);
    SeparatePush(qs, d, p, [p]);
  }

  lemma ReadyPushFront(heads: seq<Ptr>, tails: seq<Ptr>, link: seq<Ptr>, qs: seq<seq<Pid>>, n: nat, d: nat, p: Pid)
    requires ReadyOk(heads, tails, link, qs, n) && d < |qs| && p < n && OnNone(qs, p) && qs[d] != []
    ensures ReadyOk(heads[d := Some(p)], tails, link[p := heads[d]], qs[d := [p] + qs[d]], n)
  {
    ChainsPushFront(heads, link, qs, d, p);
    SeparatePush(qs, d, p, [p] + qs[d]);
  }

  lemma ReadyPushBack(heads: seq<Ptr>, tails: seq<Ptr>, link: seq<Ptr>, qs: seq<seq<Pid>>, n: nat, d: nat, p: Pid)
    requires ReadyOk(heads, tails, link, qs, n) && d < |qs| && p < n && OnNone(qs, p) && qs[d] != []
    ensures tails[d].Some? && tails[d].value < |link|
    ensures ReadyOk(heads, tails[d := Some(p)], link[tails[d].value := Some(p)][p := None], qs[d := qs[d] + [p]], n)
  {
    ChainsPushBack(heads, link, qs, d, p);
    SeparatePush(qs, d, p, qs[d] + [p]);
  }

  /** The ready queues as they are linked. */
  datatype Links = Links(heads: seq<Ptr>, tails: seq<Ptr>, link: seq<Ptr>)

  ghost predicate Represents(l: Links, qs: seq<seq<Pid>>, n: nat) {
    ReadyOk(l.heads, l.tails, l.link, qs, n)
  }

  predicate Linkable(l: Links, q: nat, p: Pid) {
    && q < |l.heads| == |l.tails| && p < |l.link|
    && (l.heads[q].Some? ==> l.tails[q].Some? && l.tails[q].value < |l.link|)
  }

  /** What enqueue writes, whether or not `p` is on a queue already. */
  function Relink(l: Links, q: nat, p: Pid, front: bool): Links
    requires Linkable(l, q, p)
  {
    if l.heads[q] == None then Links(l.heads[q := Some(p)], l.tails[q := Some(p)], l.link[p := None])
    else if front then Links(l.heads[q := Some(p)], l.tails, l.link[p := l.heads[q]])
    else Links(l.heads, l.tails[q := Some(p)], l.link[l.tails[q].value := Some(p)][p := None])
  }

  lemma AlwaysLinkable(l: Links, qs: seq<seq<Pid>>, n: nat, q: nat, p: Pid)
    requires Represents(l, qs, n) && q < |qs| && p < n
    ensures Linkable(l, q, p)
  {
    assert Chain(l.heads[q], l.link, qs[q]);
  }

  /** A process that is on no queue is added to one. */
  lemma RelinkAdds(l: Links, qs: seq<seq<Pid>>, n: nat, q: nat, p: Pid, front: bool)
    requires Represents(l, qs, n) && q < |qs| && p < n && OnNone(qs, p)
    ensures Linkable(l, q, p)
    ensures Represents(Relink(l, q, p, front), qs[q := if front then [p] + qs[q] else qs[q] + [p]], n)
  {
    hide ReadyOk, OnNone;
    AlwaysLinkable(l, qs, n, q, p);
    HeadsAgree(l.heads, l.tails, l.link, qs, n);
    if l.heads[q] == None {
      assert [p] + qs[q] == [p] == qs[q] + [p];
      ReadyPushFirst(l.heads, l.tails, l.link, qs, n, q, p);
    } else if front {
      ReadyPushFront(l.heads, l.tails, l.link, qs, n, q, p);
    } else {
      ReadyPushBack(l.heads, l.tails, l.link, qs, n, q, p);
    }
  }

  // A process that is announced although it is on a queue.

  /** Two chains from the same head agree as far as their links do. */
  lemma {:induction false} SameChain(head: Ptr, link: seq<Ptr>, link': seq<Ptr>, s: seq<Pid>, s': seq<Pid>, k: nat)
    requires Chain(head, link, s) && Chain(head, link', s') && k < |s|
    requires forall j :: 0 <= j < k ==> s[j] < |link'| && link'[s[j]] == link[s[j]]
    ensures k < |s'| && s'[..k + 1] == s[..k + 1]
  {
    hide Chain;
    if k == 0 {
      ChainStart(head, link, s);
      ChainStart(head, link', s');
    } else {
      SameChain(head, link, link', s, s', k - 1);
      assert s'[k - 1] == s'[..k][k - 1] == s[..k][k - 1] == s[k - 1];
      ChainAt(head, link, s, k - 1);
      ChainAt(head, link', s', k - 1);
      assert s'[..k + 1] == s'[..k] + [s'[k]];
    }
  }

  lemma ChainStart(head: Ptr, link: seq<Ptr>, s: seq<Pid>)
    requires Chain(head, link, s)
    ensures head == if s == [] then None else Some(s[0])
  {
  }

  /** With time left it is put in front of its queue, which then leads around to it again. */
  lemma FrontTwice(l: Links, qs: seq<seq<Pid>>, qs': seq<seq<Pid>>, n: nat, q: nat, k: nat, p: Pid)
    requires Represents(l, qs, n) && q < |qs| && k < |qs[q]| && qs[q][k] == p && p < n && Linkable(l, q, p)
    ensures !Represents(Relink(l, q, p, true), qs', n)
  {
    var l' := Relink(l, q, p, true);
    if Represents(l', qs', n) {
      var s, s' := qs[q], qs'[q];
      assert Chain(l.heads[q], l.link, s) && Chain(l'.heads[q], l'.link, s') && NoDup(s) && NoDup(s');
      ChainDropHead(l'.heads[q], l'.link, s');
      forall j | 0 <= j < k
        ensures l'.link[s[j]] == l.link[s[j]]
      {
        NoDupAt(s, j, k);
      }
      SameChain(l.heads[q], l.link, l'.link, s, s'[1..], k);
      TwiceOn(s, s', k);
    }
  }

  lemma TwiceOn(s: seq<Pid>, s': seq<Pid>, k: nat)
    ensures k < |s| && k + 1 < |s'| && s'[0] == s[k] && s'[1..][..k + 1] == s[..k + 1] ==> !NoDup(s')
  {
    if k < |s| && k + 1 < |s'| && s'[1..][..k + 1] == s[..k + 1] {
      assert s'[k + 1] == s'[1..][..k + 1][k] == s[..k + 1][k] == s[k];
    }
  }

  lemma NotBefore(s: seq<Pid>, k: nat)
    ensures NoDup(s) && k + 1 < |s| ==> s[k + 1] in s && s[k + 1] !in s[..k + 1]
  {
  }

  /** Without, its queue ends with it, wherever it is put. */
  lemma BackTwice(l: Links, qs: seq<seq<Pid>>, qs': seq<seq<Pid>>, n: nat, q0: nat, q: nat, k: nat, p: Pid)
    requires Represents(l, qs, n) && q0 < |qs| && k < |qs[q0]| && qs[q0][k] == p && p < n && Linkable(l, q, p)
    requires q < |qs| && Represents(Relink(l, q, p, false), qs', n)
    ensures |qs'| == |qs| && qs'[q0] == qs[q0][..k + 1]
  {
    var l' := Relink(l, q, p, false);
    var s, s' := qs[q0], qs'[q0];
    assert Chain(l.heads[q0], l.link, s) && Chain(l'.heads[q0], l'.link, s') && NoDup(s);
    assert Chain(l.heads[q], l.link, qs[q]);
    if qs[q] == [] {
      assert l'.heads[q0] == l.heads[q0];
    }
    forall j | 0 <= j < k
      ensures l'.link[s[j]] == l.link[s[j]]
    {
      NoDupAt(s, j, k);
      assert s[j] in qs[q0];
      if q != q0 && qs[q] != [] {
        assert qs[q][|qs[q]| - 1] in qs[q];
      } else if q == q0 {
        NoDupAt(s, j, |s| - 1);
      }
    }
    SameChain(l.heads[q0], l.link, l'.link, s, s', k);
    assert s'[k] == s'[..k + 1][k] == s[..k + 1][k] == p;
    ChainAt(l'.heads[q0], l'.link, s', k);
    assert l'.link[p] == None;
    assert s' == s'[..k + 1];
  }

  /** Is nothing lost if `p` is announced again?  Only if it goes where it is. */
  predicate Harmless(r: Rq, p: Pid)
    requires p < |r.slices| && |r.ready| == NR_SCHED_QUEUES && 0 <= r.slices[p].priority < NR_SCHED_QUEUES
  {
    && r.slices[p].ticksLeft <= 0
    && Reschedule(r, p).slices[p].priority == r.slices[p].priority
    && Last(r.ready[r.slices[p].priority]) == Some(p)
  }

  /** The links stand for queues that hold exactly the processes that can run. */
  ghost predicate StandsForExact(l: Links, i: Ipc, r: Rq)
    requires WfIpc(i) && |r.slices| == |i.procs|
  {
    exists qs :: Represents(l, qs, |i.procs|) && WfRq(r.(ready := qs), |i.procs|) &&
                 ReadyExact(i, r.(ready := qs), -1)
  }

  /** enqueue of a process that is on its queue already leaves the links in order if and only if
      that process used up its time, keeps its priority and is the last of its queue. */
  lemma AgainExactIff(l: Links, i: Ipc, r: Rq, p: Pid)
    requires WfIpc(i) && WfRq(r, |i.procs|) && p < |i.procs| && Runnable(i, p)
    requires Represents(l, r.ready, |i.procs|) && ReadyExact(i, r, -1)
    ensures var r1 := Reschedule(r, p);
            var q, front := r1.slices[p].priority, r.slices[p].ticksLeft > 0;
            && 0 <= q < NR_SCHED_QUEUES && Linkable(l, q, p)
            && (StandsForExact(Relink(l, q, p, front), i, r1) <==> Harmless(r, p))
            && (Harmless(r, p) ==> Relink(l, q, p, front) == l)
  {
    hide Represents, ReadyExact, Relink, Linkable, Reschedule, WfIpc;
    NewPriority(i, r, p);
    var r1 := Reschedule(r, p);
    var q0, q, front := r.slices[p].priority, r1.slices[p].priority, r.slices[p].ticksLeft > 0;
    AlwaysLinkable(l, r.ready, |i.procs|, q, p);
    var k := OnItsQueue(i, r, p);
    var l' := Relink(l, q, p, front);
    if Harmless(r, p) {
      TailAgain(l, r.ready, |i.procs|, q, p);
      ExactAgain(i, r, p);
      assert r1.(ready := r.ready) == r1;
      assert Represents(l', r.ready, |i.procs|);
    } else if StandsForExact(l', i, r1) {
      var qs :| Represents(l', qs, |i.procs|) && WfRq(r1.(ready := qs), |i.procs|) &&
                ReadyExact(i, r1.(ready := qs), -1);
      if front {
        assert q == q0;
        FrontTwice(l, r.ready, qs, |i.procs|, q, k, p);
      } else {
        BackTwice(l, r.ready, qs, |i.procs|, q0, q, k, p);
        CutOff(i, r, r1.(ready := qs), p, k);
      }
      assert false;
    }
  }

  /** Announcing `p` again breaks the links. */
  ghost predicate Breaks(l: Links, i: Ipc, r: Rq, p: Pid)
    requires WfIpc(i) && WfRq(r, |i.procs|) && p < |i.procs|
  {
    var r1 := Reschedule(r, p);
    var q := r1.slices[p].priority;
    0 <= q && Linkable(l, q, p) && !StandsForExact(Relink(l, q, p, r.slices[p].ticksLeft > 0), i, r1)
  }

  /** T_RESUME of PM just after the small image was booted: PM's link then leads to PM itself. */
  lemma ResumeFails() returns (st: State)
    ensures Inv(st) && st.ipc == SMALL_IMAGE && WfRq(st.rq, |SMALL_IMAGE.procs|) && Runnable(st.ipc, PM)
    ensures forall l :: Represents(l, st.rq.ready, |st.ipc.procs|) ==> Breaks(l, st.ipc, st.rq, PM)
  {
    hide EnqueueAll, Inv, Breaks, Represents, ReadyExact, WfIpc;
    st := SmallImageBoots();
    InvParts(st);
    PMCanRun(st.ipc);
    forall l | Represents(l, st.rq.ready, |st.ipc.procs|)
      ensures Breaks(l, st.ipc, st.rq, PM)
    {
      TimeLeftBreaks(l, st.ipc, st.rq, PM);
    }
  }

  lemma PMCanRun(i: Ipc)
    requires i == SMALL_IMAGE
    ensures PM < |i.procs| && Runnable(i, PM) && SMALL_QUEUES.slices[PM].ticksLeft > 0
  {
  }

  lemma TimeLeftBreaks(l: Links, i: Ipc, r: Rq, p: Pid)
    requires WfIpc(i) && WfRq(r, |i.procs|) && p < |i.procs| && Runnable(i, p) && r.slices[p].ticksLeft > 0
    requires Represents(l, r.ready, |i.procs|) && ReadyExact(i, r, -1)
    ensures Breaks(l, i, r, p)
  {
    hide Represents, ReadyExact, Relink, Linkable, StandsForExact;
    AgainExactIff(l, i, r, p);
  }

  lemma NewPriority(i: Ipc, r: Rq, p: Pid)
    requires WfRq(r, |i.procs|) && p < |i.procs|
    ensures var r1 := Reschedule(r, p);
            && 0 <= r1.slices[p].priority < NR_SCHED_QUEUES && r1.ready == r.ready
            && |r1.slices| == |r.slices| == |i.procs|
            && (r.slices[p].ticksLeft > 0 ==> r1 == r) && r1.next == r.next < |i.procs| && r1.bill == r.bill < |i.procs|
            && (forall x :: 0 <= x < |r.slices| && x != p ==> r1.slices[x] == r.slices[x])
  {
  }

  lemma OnItsQueue(i: Ipc, r: Rq, p: Pid) returns (k: nat)
    requires WfIpc(i) && WfRq(r, |i.procs|) && ReadyExact(i, r, -1) && p < |i.procs| && Runnable(i, p)
    ensures var s := r.ready[r.slices[p].priority]; k < |s| && s[k] == p
  {
    assert IsPid(i, p) && p in r.ready[r.slices[p].priority];
    k :| 0 <= k < |r.ready[r.slices[p].priority]| && r.ready[r.slices[p].priority][k] == p;
  }

  /** Announcing the last of a queue again, to the same queue, changes nothing. */
  lemma TailAgain(l: Links, qs: seq<seq<Pid>>, n: nat, q: nat, p: Pid)
    requires Represents(l, qs, n) && q < |qs| && Last(qs[q]) == Some(p) && Linkable(l, q, p)
    ensures Relink(l, q, p, false) == l
  {
    var s := qs[q];
    assert Chain(l.heads[q], l.link, s);
    ChainAt(l.heads[q], l.link, s, |s| - 1);
    assert l.tails[q] == Some(p) && l.link[p] == None;
    assert l.link[p := Some(p)][p := None] == l.link && l.tails[q := Some(p)] == l.tails;
  }

  lemma ExactAgain(i: Ipc, r: Rq, p: Pid)
    requires WfIpc(i) && WfRq(r, |i.procs|) && p < |i.procs| && ReadyExact(i, r, -1)
    requires Reschedule(r, p).slices[p].priority == r.slices[p].priority
    ensures WfRq(Reschedule(r, p), |i.procs|) && ReadyExact(i, Reschedule(r, p), -1)
  {
  }

  /** The queue of `p` ends with it: those behind it are lost, or it is on a wrong queue. */
  lemma CutOff(i: Ipc, r: Rq, r': Rq, p: Pid, k: nat)
    requires WfIpc(i) && WfRq(r, |i.procs|) && WfRq(r', |i.procs|) && p < |i.procs|
    requires ReadyExact(i, r, -1) && ReadyExact(i, r', -1)
    requires forall x :: 0 <= x < |r.slices| && x != p ==> r'.slices[x] == r.slices[x]
    requires var s := r.ready[r.slices[p].priority];
             k < |s| && s[k] == p && r'.ready[r.slices[p].priority] == s[..k + 1]
    ensures r'.slices[p].priority == r.slices[p].priority
    ensures Last(r.ready[r.slices[p].priority]) == Some(p)
  {
    var q0 := r.slices[p].priority;
    var s := r.ready[q0];
    assert r'.ready[q0][k] == p;
    forall j | 0 <= j < |s|
      ensures s[j] in s[..k + 1]
    {
      assert IsPid(i, s[j]) && Runnable(i, s[j]) && r'.slices[s[j]].priority == q0;
    }
    NotBefore(s, k);
  }

  lemma OnOne(i: Ipc, r: Rq, p: Pid)
    requires WfIpc(i) && WfRq(r, |i.procs|) && ReadyExact(i, r, -1) && p < |i.procs| && Runnable(i, p)
    ensures !OnNone(r.ready, p)
  {
    var k := OnItsQueue(i, r, p);
  }

  lemma StillRuns(i: Ipc, p: Pid)
    requires WfIpc(i) && p < |i.procs| && Runnable(i, p)
    ensures var rp := i.procs[p]; SetFlags(i, p, rp.rts.(stopped := false), rp.sigs) == i
  {
    var rp := i.procs[p];
    assert rp.(rts := rp.rts.(stopped := false), sigs := rp.sigs) == rp;
    assert i.procs[p := rp] == i.procs;
  }

  /** Who is next does not matter for that. */
  lemma SameStanding(l: Links, i: Ipc, r: Rq, r': Rq)
    requires WfIpc(i) && |r.slices| == |i.procs| && r'.slices == r.slices
    requires r.next < |i.procs| && r.bill < |i.procs| && r'.next < |i.procs| && r'.bill < |i.procs|
    ensures StandsForExact(l, i, r) <==> StandsForExact(l, i, r')
  {
    hide Represents, WfIpc;
    forall qs | WfRq(r.(ready := qs), |i.procs|) || WfRq(r'.(ready := qs), |i.procs|)
      ensures WfRq(r.(ready := qs), |i.procs|) && WfRq(r'.(ready := qs), |i.procs|)
      ensures ReadyExact(i, r.(ready := qs), -1) <==> ReadyExact(i, r'.(ready := qs), -1)
    {
    }
  }

  /** Element `k` of list `d`, which is `x`, is unlinked; if it was the tail, its predecessor
      becomes the tail. */
  lemma ReadyRemove(heads: seq<Ptr>, tails: seq<Ptr>, link: seq<Ptr>, qs: seq<seq<Pid>>, n: nat, d: nat, k: nat, x: Pid,
          prev: Ptr)
    requires ReadyOk(heads, tails, link, qs, n) && d < |qs| && k < |qs[d]|
    requires x == qs[d][k] && prev == (if k == 0 then None else Some(qs[d][k - 1]))
    ensures x < |link| && (k > 0 ==> qs[d][k - 1] < |link|)
    ensures var tails' := if tails[d] == Some(x) then tails[d := prev] else tails;
            var qs' := qs[d := qs[d][..k] + qs[d][k + 1..]];
            if k == 0 then ReadyOk(heads[d := link[x]], tails', link, qs', n)
            else ReadyOk(heads, tails', link[qs[d][k - 1] := link[x]], qs', n)
  {
    hide Chains, Separate;
    assert NoDup(qs[d]) by {
      SeparateNoDup(qs, d);
    }
    LastRemoved(qs[d], k);
    SeparateRemove(qs, d, k);
    if k == 0 {
      ChainsRemoveHead(heads, link, qs, d);
    } else {
      ChainsRemove(heads, link, qs, d, k);
    }
  }

  lemma SeparateNoDup(qs: seq<seq<Pid>>, d: nat)
    requires Separate(qs) && d < |qs|
    ensures NoDup(qs[d])
  {
  }

  lemma ReadyDerefAt(heads: seq<Ptr>, tails: seq<Ptr>, link: seq<Ptr>, qs: seq<seq<Pid>>, n: nat, d: nat, k: nat)
    requires ReadyOk(heads, tails, link, qs, n) && d < |qs| && k <= |qs[d]|
    ensures PlaceOk(heads, link, PlaceAt(qs, d, k))
    ensures Deref(heads, link, PlaceAt(qs, d, k)) == if k < |qs[d]| then Some(qs[d][k]) else None
  {
    hide Chains, Separate;
    DerefAt(heads, link, qs, d, k);
  }

  lemma LastRemoved(q: seq<Pid>, k: nat)
    requires NoDup(q) && k < |q|
    ensures var r := q[..k] + q[k + 1..];
            Last(r) == if Last(q) == Some(q[k]) then (if k == 0 then None else Some(q[k - 1])) else Last(q)
  {
  }

  // The walk of mini_send.

  lemma {:induction false} LeadsOn(i: Ipc, a: Pid, b: Pid, n: nat)
    requires WfIpc(i) && a < |i.procs| && b < |i.procs| && Leads(i, a, b, n) && Sending(i, b)
    ensures Leads(i, a, i.procs[b].sendto, n + 1)
    decreases n
  {
    if n > 0 {
      LeadsOn(i, i.procs[a].sendto, b, n - 1);
    } else {
      assert Leads(i, i.procs[a].sendto, i.procs[b].sendto, 0);
    }
  }

  lemma {:induction false} LeadsOnce(i: Ipc, a: Pid, b: Pid, c: Pid, n: nat)
    requires WfIpc(i) && a < |i.procs| && Leads(i, a, b, n) && Leads(i, a, c, n)
    ensures b == c
    decreases n
  {
    if n > 0 {
      LeadsOnce(i, i.procs[a].sendto, b, c, n - 1);
    }
  }

  lemma {:induction false} LeadsPast(i: Ipc, a: Pid, b: Pid, n: nat, c: Pid, m: nat)
    requires WfIpc(i) && a < |i.procs| && b < |i.procs| && Leads(i, a, b, n) && m > n && !Sending(i, b)
    ensures !Leads(i, a, c, m)
    decreases n
  {
    if n > 0 && Sending(i, a) {
      LeadsPast(i, i.procs[a].sendto, b, n - 1, c, m - 1);
    }
  }

  // The caller queues.

  lemma ListsDerefAt(heads: seq<Ptr>, link: seq<Ptr>, qs: seq<seq<Pid>>, n: nat, d: nat, k: nat)
    requires ListsOk(heads, link, qs, n) && d < |qs| && k <= |qs[d]|
    ensures |link| == n && |heads| == |qs|
    ensures PlaceOk(heads, link, PlaceAt(qs, d, k))
    ensures Deref(heads, link, PlaceAt(qs, d, k)) == if k < |qs[d]| then Some(qs[d][k]) else None
  {
    hide Separate;
    DerefAt(heads, link, qs, d, k);
  }

  lemma ListsPushBack(heads: seq<Ptr>, link: seq<Ptr>, qs: seq<seq<Pid>>, n: nat, d: nat, p: Pid)
    requires ListsOk(heads, link, qs, n) && d < |qs| && p < n && OnNone(qs, p)
    ensures |link| == n && |heads| == |qs|
    ensures qs[d] == [] ==> ListsOk(heads[d := Some(p)], link[p := None], qs[d := qs[d] + [p]], n)
    ensures qs[d] != [] ==>
              qs[d][|qs[d]| - 1] < n &&
              ListsOk(heads, link[qs[d][|qs[d]| - 1] := Some(p)][p := None], qs[d := qs[d] + [p]], n)
  {
    SeparatePush(qs, d, p, qs[d] + [p]);
    if qs[d] == [] {
      assert Chain(heads[d], link, qs[d]);
      assert qs[d] + [p] == [p] + qs[d];
      ChainsPushFront(heads, link, qs, d, p);
    } else {
      ChainsPushBack(heads, link, qs, d, p);
    }
  }

  lemma ListsRemove(heads: seq<Ptr>, link: seq<Ptr>, qs: seq<seq<Pid>>, n: nat, d: nat, k: nat, x: Pid)
    requires ListsOk(heads, link, qs, n) && d < |qs| && k < |qs[d]| && x == qs[d][k]
    ensures |link| == n && |heads| == |qs| && x < |link| && (k > 0 ==> qs[d][k - 1] < |link|)
    ensures var qs' := qs[d := qs[d][..k] + qs[d][k + 1..]];
            if k == 0 then ListsOk(heads[d := link[x]], link, qs', n)
            else ListsOk(heads, link[qs[d][k - 1] := link[x]], qs', n)
  {
    hide Chain, Separate;
    SeparateRemove(qs, d, k);
    if k == 0 {
      ChainsRemoveHead(heads, link, qs, d);
    } else {
      ChainsRemove(heads, link, qs, d, k);
    }
  }

  lemma CallersApart(i: Ipc, p: Pid)
    requires GraphInv(i) && p < |i.procs| && !Sending(i, p)
    ensures OnNone(i.callers, p)
  {
    assert forall d :: 0 <= d < |i.callers| ==> IsPid(i, d);
    assert IsPid(i, p);
  }

  lemma ReadyApart(i: Ipc, r: Rq, p: Pid)
    requires WfIpc(i) && WfRq(r, |i.procs|) && ReadyExact(i, r, -1) && p < |i.procs|
    ensures !Runnable(i, p) ==> OnNone(r.ready, p)
  {
  }

  lemma GraphShape(i: Ipc, r: Rq, s: Pid, d: Pid)
    requires GraphInv(i) && WfRq(r, |i.procs|) && ReadyExact(i, r, -1) && s < |i.procs| && d < |i.procs| &&
             !Sending(i, s)
    ensures WalkEnds(i, d) && OnNone(i.callers, s)
    ensures !Runnable(i, d) ==> OnNone(r.ready, d)
  {
    assert IsPid(i, d);
    CallersApart(i, s);
    ReadyApart(i, r, d);
  }

  /** enqueue does not look at the caller queues. */
  lemma EnqueueSame(i: Ipc, j: Ipc, r: Rq, p: Pid)
    requires WfIpc(i) && WfIpc(j) && WfRq(r, |i.procs|) && p < |i.procs|
    requires j.procs == i.procs && j.privs == i.privs
    ensures Enqueue(i, r, p) == Enqueue(j, r, p)
  {
    hide WfIpc, WfRq;
  }

  lemma QueuedNotReady(i: Ipc, r: Rq, d: Pid, k: nat)
    requires WfIpc(i) && WfRq(r, |i.procs|) && QueuesExact(i) && ReadyExact(i, r, -1)
    requires d < |i.procs| && k < |i.callers[d]|
    ensures i.callers[d][k] < |i.procs| && OnNone(r.ready, i.callers[d][k])
  {
    hide ReadyExact;
    assert IsPid(i, d) && IsPid(i, i.callers[d][k]) && i.callers[d][k] in i.callers[d];
    ReadyApart(i, r, i.callers[d][k]);
  }

  lemma InRange(i: Ipc, p: Pid)
    requires WfIpc(i)
    ensures |i.callers| == |i.procs| > PM
    ensures p < |i.procs| ==> i.procs[p].priv < |i.privs|
    ensures forall v :: 0 <= v < |i.privs| ==> |i.privs[v].pending| == MapBits(|i.privs|)
  {
  }

  // What the kernel entries need of the invariant.

  lemma InvParts(st: State)
    requires Inv(st)
    ensures Wf(st) && GraphInv(st.ipc) && QueuesExact(st.ipc) && ReadyExact(st.ipc, st.rq, -1)
  {
  }

  lemma SameReady(i: Ipc, j: Ipc, r: Rq)
    requires WfIpc(i) && WfIpc(j) && WfRq(r, |i.procs|) && i.procs == j.procs
    requires ReadyExact(i, r, -1)
    ensures ReadyExact(j, r, -1)
  {
    assert forall p :: IsPid(i, p) <==> IsPid(j, p);
  }

  lemma BusyOnly(i: Ipc, c: Pid, busy: bool)
    requires WfIpc(i) && c < |i.procs|
    ensures SetBusy(i, c, busy).procs == i.procs
  {
  }

  lemma BusyParts(i: Ipc, r: Rq, c: Pid, busy: bool)
    requires WfIpc(i) && WfRq(r, |i.procs|) && c < |i.procs| && QueuesExact(i) && ReadyExact(i, r, -1)
    ensures var j := SetBusy(i, c, busy);
            j.procs == i.procs && QueuesExact(j) && ReadyExact(j, r, -1)
  {
    hide ReadyExact;
    var j := SetBusy(i, c, busy);
    SameReady(i, j, r);
    assert forall p :: IsPid(i, p) <==> IsPid(j, p);
  }

  lemma SendLength(st: State, s: Pid, d: Pid, addr: nat, nb: bool)
    requires Wf(st) && s < |st.ipc.procs| && d < |st.ipc.procs|
    ensures |S.MiniSend(st, s, d, addr, nb).0.ipc.procs| == |st.ipc.procs|
  {
    hide S.Enqueue, S.Dequeue, WfIpc, WfRq;
  }

  lemma TakenOff(i: Ipc, r: Rq, current: Pid, p: Pid)
    requires WfIpc(i) && WfRq(r, |i.procs|) && p < |i.procs| && ReadyExact(i, r, -1)
    ensures OnNone(Dequeue(i, r, current, p).ready, p)
    ensures |r.slices| == |i.procs|
  {
    hide Dequeue, WfIpc;
    ReadyDequeue(i, r, current, p);
  }

  lemma TickParts(st: State, ticks: nat)
    requires Inv(st)
    ensures WfIpc(st.ipc) && WfRq(st.rq, |st.ipc.procs|) && |st.rq.slices| == |st.ipc.procs| &&
            st.rq.bill < |st.ipc.procs|
    ensures ReadyExact(st.ipc, T.ChargeAll(st.ipc, st.rq, st.current, ticks), -1)
  {
    hide ReadyExact, T.ChargeAll, IpcInv;
    R.ChargeAllKeeps(st.ipc, st.rq, st.current, ticks);
  }

  lemma ClearSpec(i: Ipc, p: Pid)
    requires WfIpc(i) && p < |i.procs|
    ensures var j := S.Clear(i, p);
            && j.procs == i.procs[p := i.procs[p].(rts := SLOT_FREE)] && j.privs == i.privs
            && |i.log| <= |j.log| && j.log == i.log + j.log[|i.log|..]
            && |j.callers| == |i.callers| == |i.procs|
            && (!Sending(i, p) ==> j.callers == i.callers)
            && (Sending(i, p) ==> forall d :: 0 <= d < |j.callers| ==> j.callers[d] == Without(i.callers[d], p))
  {
    var j := S.Clear(i, p);
    assert j.log == i.log + j.log[|i.log|..];
  }

  lemma ClockWorkIff(st: State)
    requires Inv(st)
    ensures Inv(T.DoClocktick(st)) <==> (T.Spent(st) ==> Runnable(st.ipc, st.ticked))
  {
    hide Inv, ReadyExact;
    InvParts(st);
    if T.Spent(st) {
      ClockWorkExactIff(st);
      if Inv(T.DoClocktick(st)) {
        InvParts(T.DoClocktick(st));
      }
    }
    if T.Spent(st) ==> Runnable(st.ipc, st.ticked) {
      R.ClockWorkKeeps(st);
    }
  }

  // Booting.

  function NoLists(n: nat): seq<seq<Pid>> {
    seq(n, _ => [])
  }

  lemma NoListsOk(m: nat, n: nat)
    ensures ListsOk(seq(m, _ => None), seq(n, _ => None), NoLists(m), n)
    ensures ReadyOk(seq(m, _ => None), seq(m, _ => None), seq(n, _ => None), NoLists(m), n)
  {
  }

  lemma NothingQueued(i: Ipc, r: Rq, boot: seq<Pid>)
    requires WfIpc(i) && WfRq(r, |i.procs|) && r.ready == NoLists(NR_SCHED_QUEUES)
    requires forall p :: 0 <= p < |i.procs| ==> (p in boot <==> i.procs[p].rts.Zero())
    ensures ReadyBut(i, r, boot)
  {
  }

  lemma StillToCome(i: Ipc, r: Rq, boot: seq<Pid>, k: nat)
    requires WfIpc(i) && WfRq(r, |i.procs|) && NoDup(boot) && k < |boot| && boot[k] < |i.procs| && Runnable(i, boot[k])
    requires ReadyBut(i, r, boot[k..])
    ensures OnNone(r.ready, boot[k])
    ensures ReadyBut(i, Enqueue(i, r, boot[k]), boot[k + 1..])
  {
    hide Enqueue;
    var ps := boot[k..];
    assert ps[0] == boot[k] && ps[1..] == boot[k + 1..];
    EnqueueOne(i, r, ps);
  }

  // The scan of mini_receive.

  lemma MapSize(i: Ipc, v: nat)
    requires WfIpc(i) && v < |i.privs|
    ensures |i.privs[v].pending| == MapBits(|i.privs|) && MapBits(|i.privs|) % BITCHUNK_BITS == 0
  {
  }

  lemma FindEnd(i: Ipc, v: nat, src: Endpoint)
    requires WfIpc(i) && v < |i.privs|
    ensures FindNotify(i, v, src, MapBits(|i.privs|) / BITCHUNK_BITS) == MapBits(|i.privs|)
  {
  }

  /** One chunk of the scan. */
  lemma FindOn(i: Ipc, v: nat, src: Endpoint, c: nat)
    requires WfIpc(i) && v < |i.privs| && (c + 1) * BITCHUNK_BITS <= MapBits(|i.privs|)
    ensures var bits, lo, hi := i.privs[v].pending, c * BITCHUNK_BITS, (c + 1) * BITCHUNK_BITS;
            && |bits| == MapBits(|i.privs|)
            && (true !in bits[lo..hi] ==> FindNotify(i, v, src, c) == FindNotify(i, v, src, c + 1))
            && (true in bits[lo..hi] ==>
                  var id := LowestBit(bits, lo, hi);
                  FindNotify(i, v, src, c) ==
                  if id >= |i.privs| then |bits|
                  else if src == Any || src == i.privs[id].owner then id
                  else FindNotify(i, v, src, c + 1))
  {
    var bits, lo, hi := i.privs[v].pending, c * BITCHUNK_BITS, (c + 1) * BITCHUNK_BITS;
    var id := LowestBit(bits, lo, hi);
    if id < hi {
      assert bits[lo..hi][id - lo];
    } else {
      assert forall k :: 0 <= k < hi - lo ==> bits[lo..hi][k] == bits[lo + k];
    }
  }

  class Kernel {
    var procs: seq<Proc>
    var privs: seq<Priv>
    var slices: seq<Slice>

    /** p_caller_q and p_q_link. */
    var callerHead: seq<Ptr>
    var qLink: seq<Ptr>

    /** rdy_head, rdy_tail and p_nextready. */
    var rdyHead: seq<Ptr>
    var rdyTail: seq<Ptr>
    var nextReady: seq<Ptr>

    var procPtr: Pid
    var nextPtr: Pid
    var billPtr: Pid
    var prevPtr: Pid
    var lastSpent: Ptr
    var realtime: int
    var nextTimeout: int

    /** What the links mean, and the history. */
    ghost var callers: seq<seq<Pid>>
    ghost var ready: seq<seq<Pid>>
    ghost var log: seq<Event>

    ghost function Messages(): Ipc
      reads this
    {
      Ipc(procs, privs, callers, log)
    }

    ghost function Queues(): Rq
      reads this
    {
      Rq(slices, ready, nextPtr, billPtr, lastSpent)
    }

    ghost function Abs(): State
      reads this
    {
      State(Messages(), Queues(), procPtr, prevPtr, realtime, nextTimeout)
    }

    /** The links, heads and tails represent the abstract queues. */
    ghost predicate Rep()
      reads this
    {
      && Wf(Abs())
      && ListsOk(callerHead, qLink, callers, |procs|)
      && ReadyOk(rdyHead, rdyTail, nextReady, ready, |procs|)
    }

    /** main(): the tables are filled and the processes in `boot`, which have no flags, announced. */
    constructor (procs: seq<Proc>, privs: seq<Priv>, slices: seq<Slice>, boot: seq<Pid>)
      requires Fresh(Ipc(procs, privs, NoLists(|procs|), []))
      requires WfRq(Rq(slices, NoLists(NR_SCHED_QUEUES), IDLE, IDLE, None), |procs|)
      requires Ranked(Rq(slices, NoLists(NR_SCHED_QUEUES), IDLE, IDLE, None))
      requires NoDup(boot) && forall p :: 0 <= p < |procs| ==> (p in boot <==> procs[p].rts.Zero())
      requires forall k :: 0 <= k < |boot| ==> boot[k] < |procs|
      ensures Rep() && Inv(Abs())
      ensures this.procs == procs && this.privs == privs && procPtr == IDLE
    {
      hide ListsOk, ReadyOk, WfIpc, EnqueueAll, IpcInv, CallInv, RqInv, SignalsBlock;
      this.procs, this.privs, this.slices := procs, privs, slices;
      callerHead, qLink, callers := seq(|procs|, _ => None), seq(|procs|, _ => None), NoLists(|procs|);
      rdyHead, rdyTail, ready := seq(NR_SCHED_QUEUES, _ => None), seq(NR_SCHED_QUEUES, _ => None),
        NoLists(NR_SCHED_QUEUES);
      nextReady := seq(|procs|, _ => None);
      procPtr, nextPtr, billPtr, prevPtr, lastSpent := IDLE, IDLE, IDLE, IDLE, None;
      realtime, nextTimeout, log := 0, 0, [];
      new;
      NoListsOk(|procs|, |procs|);
      NoListsOk(NR_SCHED_QUEUES, |procs|);
      ghost var r := Queues();
      Announce(boot);
      billPtr := IDLE;
      BootKeeps(Abs(), r, boot);
    }

    method Announce(boot: seq<Pid>)
      requires Rep() && NoDup(boot) && forall p :: 0 <= p < |procs| ==> (p in boot <==> procs[p].rts.Zero())
      requires forall k :: 0 <= k < |boot| ==> boot[k] < |procs|
      requires ready == NoLists(NR_SCHED_QUEUES)
      modifies this`slices, this`lastSpent, this`rdyHead, this`rdyTail, this`nextReady, this`nextPtr, this`billPtr,
        this`ready
      ensures Rep() && Abs() == old(Abs()).(rq := EnqueueAll(Messages(), old(Queues()), boot))
    {
      hide ListsOk, ReadyOk, WfIpc, WfRq, OnNone, ReadyBut, S.Enqueue;
      ghost var i, r := Messages(), Queues();
      NothingQueued(i, r, boot);
      assert boot[0..] == boot;
      var k := 0;
      while k < |boot|
        invariant k <= |boot| && Rep() && Abs() == old(Abs()).(rq := Queues())
        invariant ReadyBut(i, Queues(), boot[k..]) && EnqueueAll(i, Queues(), boot[k..]) == EnqueueAll(i, r, boot)
      {
        var rp := boot[k];
        assert boot[k..][0] == rp && boot[k..][1..] == boot[k + 1..];
        StillToCome(i, Queues(), boot, k);
        Enqueue(rp);
        k := k + 1;
      }
    }

    // Scheduling.

    ghost predicate HeadsInRange()
      reads this
    {
      WfIpc(Messages()) && forall q :: 0 <= q < |rdyHead| && rdyHead[q].Some? ==> rdyHead[q].value < |procs|
    }

    /** pick_proc looks at the heads only. */
    method PickProc()
      requires HeadsInRange()
      modifies this`nextPtr, this`billPtr
      ensures (nextPtr, billPtr) == PickHead(Messages(), rdyHead, old(nextPtr), old(billPtr))
      ensures old(Rep()) ==> Rep() && Abs() == old(Abs()).(rq := S.PickProc(Messages(), old(Queues())))
    {
      hide ListsOk, ReadyOk, S.PickProc, WfIpc;
      InRange(Messages(), 0);
      if Rep() {
        PickSame(Messages(), Queues(), rdyHead, rdyTail, nextReady);
      }
      var q := 0;
      while q < |rdyHead| && rdyHead[q] == None
        invariant q <= |rdyHead| && FirstHead(rdyHead, q) == FirstHead(rdyHead, 0)
        modifies {}
      {
        q := q + 1;
      }
      if q < |rdyHead| {
        var rp := rdyHead[q].value;
        InRange(Messages(), rp);
        nextPtr := rp;
        if privs[procs[rp].priv].billable {
          billPtr := rp;
        }
      }
    }

    method Sched(rp: Pid) returns (queue: nat, front: bool)
      requires Rep() && rp < |procs|
      modifies this`slices, this`lastSpent
      ensures Rep() && Abs() == old(Abs()).(rq := Reschedule(old(Queues()), rp))
      ensures queue == slices[rp].priority && front == (old(slices[rp].ticksLeft) > 0)
    {
      hide ListsOk, ReadyOk, WfIpc;
      var s := slices[rp];
      var timeLeft := s.ticksLeft > 0;
      var penalty := 0;
      if !timeLeft {
        s := s.(ticksLeft := s.quantum);
        if lastSpent == Some(rp) {
          penalty := penalty + 1;
        } else {
          penalty := penalty - 1;
        }
        lastSpent := Some(rp);
      }
      if penalty != 0 && !IsKernel(rp) {
        s := s.(priority := s.priority + penalty);
        if s.priority < s.maxPriority {
          s := s.(priority := s.maxPriority);
        } else if s.priority > IDLE_Q - 1 {
          s := s.(priority := IDLE_Q - 1);
        }
      }
      slices := slices[rp := s];
      queue := s.priority;
      front := timeLeft;
    }

    ghost function LinksNow(): Links
      reads this
    {
      Links(rdyHead, rdyTail, nextReady)
    }

    method LinkReady(q: nat, rp: Pid, front: bool)
      requires Linkable(LinksNow(), q, rp)
      modifies this`rdyHead, this`rdyTail, this`nextReady
      ensures LinksNow() == Relink(old(LinksNow()), q, rp, front)
    {
      if rdyHead[q] == None {
        rdyHead, rdyTail := rdyHead[q := Some(rp)], rdyTail[q := Some(rp)];
        nextReady := nextReady[rp := None];
      } else if front {
        nextReady := nextReady[rp := rdyHead[q]];
        rdyHead := rdyHead[q := Some(rp)];
      } else {
        nextReady := nextReady[rdyTail[q].value := Some(rp)];
        rdyTail := rdyTail[q := Some(rp)];
        nextReady := nextReady[rp := None];
      }
    }

    /** The links and slices after the first part of enqueue, which looks at nothing else... */
    ghost predicate Inserted(l: Links, r: Rq, rp: Pid)
      requires WfRq(r, |procs|) && rp < |procs|
      reads this
    {
      var r1 := Reschedule(r, rp);
      && 0 <= r1.slices[rp].priority && Linkable(l, r1.slices[rp].priority, rp) && HeadsInRange()
      && LinksNow() == Relink(l, r1.slices[rp].priority, rp, r.slices[rp].ticksLeft > 0)
      && slices == r1.slices && lastSpent == r1.lastSpent
    }

    /** ... and the choice after all of it. */
    ghost predicate Announced(l: Links, r: Rq, rp: Pid)
      requires WfRq(r, |procs|) && rp < |procs|
      reads this
    {
      Inserted(l, r, rp) && (nextPtr, billPtr) == PickHead(Messages(), rdyHead, r.next, r.bill)
    }

    method Insert(rp: Pid)
      requires Rep() && rp < |procs|
      modifies this`slices, this`lastSpent, this`rdyHead, this`rdyTail, this`nextReady, this`ready
      ensures Inserted(old(LinksNow()), old(Queues()), rp)
      ensures old(OnNone(ready, rp)) ==> Rep() && Abs() == old(Abs()).(rq := Added(old(Queues()), rp))
      ensures !old(OnNone(ready, rp)) ==> ready == old(ready)
    {
      hide ListsOk, ReadyOk, WfIpc, WfRq, OnNone, Reschedule, S.Enqueue, Linkable, Relink;
      ghost var i, r, l := Messages(), Queues(), LinksNow();
      EnqueueParts(i, r, rp);
      var q, front := Sched(rp);
      AlwaysLinkable(l, ready, |procs|, q, rp);
      LinkReady(q, rp, front);
      RelinkHeads(i, r, l, q, rp, front);
      if OnNone(ready, rp) {
        RelinkAdds(l, ready, |procs|, q, rp, front);
        ready := ready[q := if front then [rp] + ready[q] else ready[q] + [rp]];
      }
    }

    method Enqueue(rp: Pid)
      requires Rep() && rp < |procs|
      modifies this`slices, this`lastSpent, this`rdyHead, this`rdyTail, this`nextReady, this`nextPtr, this`billPtr,
        this`ready
      ensures Announced(old(LinksNow()), old(Queues()), rp)
      ensures old(OnNone(ready, rp)) ==>
                Rep() && Abs() == old(Abs()).(rq := S.Enqueue(Messages(), old(Queues()), rp))
      ensures !old(OnNone(ready, rp)) ==> ready == old(ready)
    {
      hide ListsOk, ReadyOk, WfIpc, WfRq, OnNone, S.PickProc, Reschedule, S.Enqueue, Linkable, Relink, PickHead, Added;
      EnqueueParts(Messages(), Queues(), rp);
      Insert(rp);
      PickProc();
    }

    /** The place that points to `rp` on queue `q`, or to the end, and the element before it. */
    method FindReady(q: nat, rp: Pid) returns (xpp: Place, prevXp: Ptr, ghost k: nat)
      requires ReadyOk(rdyHead, rdyTail, nextReady, ready, |procs|) && q < |ready|
      ensures k <= |ready[q]| && xpp == PlaceAt(ready, q, k) && PlaceOk(rdyHead, nextReady, xpp)
      ensures Deref(rdyHead, nextReady, xpp) == if k < |ready[q]| then Some(ready[q][k]) else None
      ensures prevXp == if k == 0 then None else Some(ready[q][k - 1])
      ensures forall j :: 0 <= j < k ==> ready[q][j] != rp
      ensures k < |ready[q]| ==> ready[q][k] == rp
    {
      hide ReadyOk;
      prevXp, xpp, k := None, Head(q), 0;
      ReadyDerefAt(rdyHead, rdyTail, nextReady, ready, |procs|, q, 0);
      while Deref(rdyHead, nextReady, xpp) != None && Deref(rdyHead, nextReady, xpp) != Some(rp)
        invariant k <= |ready[q]| && xpp == PlaceAt(ready, q, k)
        invariant PlaceOk(rdyHead, nextReady, xpp)
        invariant Deref(rdyHead, nextReady, xpp) == if k < |ready[q]| then Some(ready[q][k]) else None
        invariant prevXp == if k == 0 then None else Some(ready[q][k - 1])
        invariant forall j :: 0 <= j < k ==> ready[q][j] != rp
        decreases |ready[q]| - k
        modifies {}
      {
        prevXp := Deref(rdyHead, nextReady, xpp);
        xpp := LinkOf(prevXp.value);
        k := k + 1;
        ReadyDerefAt(rdyHead, rdyTail, nextReady, ready, |procs|, q, k);
      }
    }

    method UnlinkReady(q: nat, rp: Pid, xpp: Place, prevXp: Ptr, ghost k: nat)
      requires ReadyOk(rdyHead, rdyTail, nextReady, ready, |procs|)
      requires q < |ready| && k < |ready[q]| && ready[q][k] == rp
      requires xpp == PlaceAt(ready, q, k) && prevXp == if k == 0 then None else Some(ready[q][k - 1])
      modifies this`rdyHead, this`rdyTail, this`nextReady, this`ready
      ensures ReadyOk(rdyHead, rdyTail, nextReady, ready, |procs|)
      ensures ready == old(ready)[q := old(ready)[q][..k] + old(ready)[q][k + 1..]]
    {
      hide ReadyOk;
      HeadsAgree(rdyHead, rdyTail, nextReady, ready, |procs|);
      ReadyRemove(rdyHead, rdyTail, nextReady, ready, |procs|, q, k, rp, prevXp);
      match xpp {
        case Head(h) => rdyHead := rdyHead[h := nextReady[rp]];
        case LinkOf(p) => nextReady := nextReady[p := nextReady[rp]];
      }
      if rdyTail[q] == Some(rp) {
        rdyTail := rdyTail[q := prevXp];
      }
      ready := ready[q := ready[q][..k] + ready[q][k + 1..]];
    }

    method Dequeue(rp: Pid)
      requires Rep() && rp < |procs|
      modifies this`rdyHead, this`rdyTail, this`nextReady, this`nextPtr, this`billPtr, this`ready
      ensures Rep() && Abs() == old(Abs()).(rq := S.Dequeue(Messages(), old(Queues()), procPtr, rp))
    {
      hide ListsOk, ReadyOk, WfIpc, S.PickProc, S.Dequeue;
      var q := slices[rp].priority;
      var xpp, prevXp, k := FindReady(q, rp);
      DequeueParts(Messages(), Queues(), procPtr, rp, k);
      if Deref(rdyHead, nextReady, xpp) == Some(rp) {
        UnlinkReady(q, rp, xpp, prevXp, k);
        if rp == procPtr || rp == nextPtr {
          PickSame(Messages(), Queues(), rdyHead, rdyTail, nextReady);
          PickProc();
        }
      }
    }

    // Message passing.

    /** The walk along p_sendto at the start of mini_send. */
    method WalkMeets(caller: Pid, dst: Pid) returns (meets: bool)
      requires WfIpc(Messages()) && dst < |procs| && WalkEnds(Messages(), dst)
      ensures meets <==> WouldLock(Messages(), caller, dst)
    {
      ghost var i := Messages();
      ghost var total: nat :| Stops(i, dst, total);
      ghost var n: nat := 0;
      var xp: Pid := dst;
      while procs[xp].rts.sending
        invariant n <= total && xp < |procs| && Leads(i, dst, xp, n) && Stops(i, xp, total - n)
        invariant forall m: nat :: 0 < m <= n ==> !Leads(i, dst, caller, m)
        decreases total - n
        modifies {}
      {
        LeadsOn(i, dst, xp, n);
        xp := procs[xp].sendto;
        n := n + 1;
        if xp == caller {
          return true;
        }
        forall m: nat | 0 < m <= n
          ensures !Leads(i, dst, caller, m)
        {
          if m == n && Leads(i, dst, caller, m) {
            LeadsOnce(i, dst, xp, caller, n);
          }
        }
      }
      forall m: nat | m > n
        ensures !Leads(i, dst, caller, m)
      {
        LeadsPast(i, dst, xp, n, caller, m);
      }
      meets := false;
    }

    /** Put `p` at the end of the queue of processes that want to send to `dst`. */
    method AppendCaller(dst: Pid, p: Pid)
      requires ListsOk(callerHead, qLink, callers, |procs|) && |callers| == |procs|
      requires dst < |procs| && p < |procs| && OnNone(callers, p)
      modifies this`callerHead, this`qLink, this`callers
      ensures ListsOk(callerHead, qLink, callers, |procs|)
      ensures callers == old(callers)[dst := old(callers)[dst] + [p]]
    {
      hide ListsOk, OnNone;
      var xpp := Head(dst);
      ghost var k := 0;
      ListsDerefAt(callerHead, qLink, callers, |procs|, dst, 0);
      while Deref(callerHead, qLink, xpp) != None
        invariant k <= |callers[dst]| && xpp == PlaceAt(callers, dst, k)
        invariant PlaceOk(callerHead, qLink, xpp)
        invariant Deref(callerHead, qLink, xpp) == if k < |callers[dst]| then Some(callers[dst][k]) else None
        decreases |callers[dst]| - k
        modifies {}
      {
        xpp := LinkOf(Deref(callerHead, qLink, xpp).value);
        k := k + 1;
        ListsDerefAt(callerHead, qLink, callers, |procs|, dst, k);
      }
      ListsPushBack(callerHead, qLink, callers, |procs|, dst, p);
      match xpp {
        case Head(h) => callerHead := callerHead[h := Some(p)];
        case LinkOf(x) => qLink := qLink[x := Some(p)];
      }
      qLink := qLink[p := None];
      callers := callers[dst := callers[dst] + [p]];
    }

    /** The message goes straight to `dst`, which waits for it. */
    method HandOver(caller: Pid, dst: Pid, addr: nat, waits: bool)
      requires Rep() && caller < |procs| && dst < |procs|
      modifies this`procs, this`log
      ensures |procs| == |old(procs)|
      ensures Rep() && Abs() == old(Abs()).(ipc := SendNow(old(Messages()), caller, dst, addr, waits))
    {
      hide ListsOk, ReadyOk, WfRq;
      var m := CopyMess(caller, addr);
      var dp := procs[dst];
      procs := procs[dst := dp.(rts := dp.rts.(receiving := false), mem := dp.mem[dp.messbuf := m])];
      log := log + [Accepted(caller, dst, m), Delivered(caller, dst, m, waits)];
      assert Messages() == SendNow(old(Messages()), caller, dst, addr, waits);
    }

    /** The caller waits on the queue of `dst`. */
    method WaitToSend(caller: Pid, dst: Pid, addr: nat)
      requires Rep() && caller < |procs| && dst < |procs| && OnNone(callers, caller)
      modifies this`procs, this`callerHead, this`qLink, this`callers, this`log
      ensures Rep() && Abs() == old(Abs()).(ipc := SendLater(old(Messages()), caller, dst, addr))
    {
      hide ListsOk, ReadyOk, WfRq, WfIpc, OnNone;
      InRange(Messages(), caller);
      log := log + [Accepted(caller, dst, Letter(Messages(), caller, addr))];
      var sp := procs[caller];
      procs := procs[caller := sp.(messbuf := addr, rts := sp.rts.(sending := true), sendto := dst)];
      AppendCaller(dst, caller);
      assert Messages() == SendLater(old(Messages()), caller, dst, addr);
    }

    method MiniSend(caller: Pid, dst: Pid, addr: nat, nonBlocking: bool) returns (result: Result)
      requires Rep() && caller < |procs| && dst < |procs|
      requires GraphInv(Messages()) && ReadyExact(Messages(), Queues(), -1) && !Sending(Messages(), caller)
      modifies this
      ensures Rep() && (Abs(), result) == S.MiniSend(old(Abs()), caller, dst, addr, nonBlocking)
    {
      hide ListsOk, ReadyOk, WfIpc, WfRq, OnNone, QueuesExact, ReplyExpected, NoneMissed, ReadyExact, S.Enqueue,
        S.Dequeue, WouldLock, SendNow, SendLater;
      GraphShape(Messages(), Queues(), caller, dst);
      var locked := WalkMeets(caller, dst);
      if locked {
        return ELOCKED;
      }
      if procs[dst].rts.receiving && !procs[dst].rts.sending
         && (procs[dst].getfrom == Any || procs[dst].getfrom == Nr(caller)) {
        HandOver(caller, dst, addr, !nonBlocking);
        if procs[dst].rts.Zero() {
          Enqueue(dst);
        }
      } else if !nonBlocking {
        if procs[caller].rts.Zero() {
          Dequeue(caller);
        }
        WaitToSend(caller, dst, addr);
      } else {
        return ENOTREADY;
      }
      return OK;
    }

    /** The scan for a pending notification in mini_receive: the lowest bit of each chunk is
        looked at, until one belongs to a wanted source. */
    method FindPending(v: nat, src: Endpoint) returns (id: nat)
      requires WfIpc(Messages()) && v < |privs|
      ensures id == FindNotify(Messages(), v, src, 0)
    {
      hide WfIpc, FindNotify;
      ghost var i := Messages();
      var bits := privs[v].pending;
      var c: nat := 0;
      MapSize(i, v);
      while c < |bits| / BITCHUNK_BITS
        invariant c * BITCHUNK_BITS <= |bits|
        invariant FindNotify(i, v, src, 0) == FindNotify(i, v, src, c)
        modifies {}
      {
        FindOn(i, v, src, c);
        var lo, hi := c * BITCHUNK_BITS, (c + 1) * BITCHUNK_BITS;
        if true in bits[lo..hi] {
          id := LowestSet(bits, lo, hi);
          if id >= |privs| {
            break;
          }
          if src == Any || src == privs[id].owner {
            return;
          }
        }
        c := c + 1;
      }
      FindEnd(i, v, src);
      id := |bits|;
    }

    static method LowestSet(bits: seq<bool>, lo: nat, hi: nat) returns (id: nat)
      requires lo < hi <= |bits| && true in bits[lo..hi]
      ensures id == LowestBit(bits, lo, hi) && id < hi
    {
      id := lo;
      ghost var k :| 0 <= k < hi - lo && bits[lo..hi][k];
      while !bits[id]
        invariant lo <= id <= lo + k && LowestBit(bits, lo, hi) == LowestBit(bits, id, hi)
        decreases hi - id
      {
        id := id + 1;
      }
    }

    /** Bit `id` is cleared and its notification message delivered. */
    method DeliverNotice(caller: Pid, v: nat, id: nat, addr: nat)
      requires Rep() && caller < |procs| && v == procs[caller].priv && id < |privs|
      modifies this`procs, this`privs, this`log
      ensures Rep() && |procs| == |old(procs)|
      ensures Abs() == old(Abs()).(ipc := TakeNotice(old(Messages()), caller, id, addr, realtime))
    {
      hide ListsOk, ReadyOk, WfRq;
      var from := privs[id].owner;
      privs := privs[v := privs[v].(pending := privs[v].pending[id := false])];
      var m := BuildMess(from, privs[v], realtime);
      privs := privs[v := ClearArg(from, privs[v])];
      procs := procs[caller := procs[caller].(mem := procs[caller].mem[addr := m])];
      log := log + [Noticed(from, caller, m)];
      assert Messages() == TakeNotice(old(Messages()), caller, id, addr, realtime);
    }

    /** The place that points to the oldest caller whose message is wanted, or to the end. */
    method FindCaller(caller: Pid, src: Endpoint) returns (xpp: Place, ghost k: nat)
      requires ListsOk(callerHead, qLink, callers, |procs|) && caller < |callers|
      ensures k == FirstFrom(callers[caller], src)
      ensures xpp == PlaceAt(callers, caller, k) && PlaceOk(callerHead, qLink, xpp)
      ensures Deref(callerHead, qLink, xpp) == if k < |callers[caller]| then Some(callers[caller][k]) else None
    {
      hide ListsOk;
      xpp, k := Head(caller), 0;
      ListsDerefAt(callerHead, qLink, callers, |procs|, caller, 0);
      while Deref(callerHead, qLink, xpp) != None
        invariant k <= |callers[caller]| && xpp == PlaceAt(callers, caller, k)
        invariant PlaceOk(callerHead, qLink, xpp)
        invariant Deref(callerHead, qLink, xpp) == if k < |callers[caller]| then Some(callers[caller][k]) else None
        invariant forall j :: 0 <= j < k ==> src != Any && src != Nr(callers[caller][j])
        decreases |callers[caller]| - k
        modifies {}
      {
        var x := Deref(callerHead, qLink, xpp).value;
        if src == Any || src == Nr(x) {
          return;
        }
        xpp := LinkOf(x);
        k := k + 1;
        ListsDerefAt(callerHead, qLink, callers, |procs|, caller, k);
      }
    }

    method UnlinkCaller(d: Pid, x: Pid, xpp: Place, ghost k: nat)
      requires ListsOk(callerHead, qLink, callers, |procs|)
      requires d < |callers| && k < |callers[d]| && callers[d][k] == x && xpp == PlaceAt(callers, d, k)
      modifies this`callerHead, this`qLink, this`callers
      ensures ListsOk(callerHead, qLink, callers, |procs|)
      ensures callers == old(callers)[d := old(callers)[d][..k] + old(callers)[d][k + 1..]]
    {
      hide ListsOk;
      ListsRemove(callerHead, qLink, callers, |procs|, d, k, x);
      match xpp {
        case Head(h) => callerHead := callerHead[h := qLink[x]];
        case LinkOf(p) => qLink := qLink[p := qLink[x]];
      }
      callers := callers[d := callers[d][..k] + callers[d][k + 1..]];
    }

    /** The message of `x` is copied to `caller`, and `x` released. */
    method Release(caller: Pid, x: Pid, addr: nat, ghost k: nat)
      requires Rep() && caller < |procs| && k < |callers[caller]| && callers[caller][k] == x
      modifies this`procs, this`log
      ensures Rep() && |procs| == |old(procs)|
      ensures Abs() == old(Abs()).(ipc := TakeQueued(old(Messages()), caller, k, addr).(callers := callers))
    {
      hide ListsOk, ReadyOk, WfRq;
      var m := CopyMess(x, procs[x].messbuf);
      procs := procs[caller := procs[caller].(mem := procs[caller].mem[addr := m])];
      procs := procs[x := procs[x].(rts := procs[x].rts.(sending := false))];
      log := log + [Delivered(x, caller, m, true)];
      assert Messages() == TakeQueued(old(Messages()), caller, k, addr).(callers := callers);
    }

    /** The message of `x`, which waits at `xpp`, is taken. */
    method TakeCaller(caller: Pid, x: Pid, xpp: Place, addr: nat, ghost k: nat)
      requires Rep() && caller < |procs| && k < |callers[caller]| && callers[caller][k] == x
      requires xpp == PlaceAt(callers, caller, k) && OnNone(ready, x) && x < |procs|
      modifies this
      ensures Rep() && Abs() == Wake(old(Abs()), TakeQueued(old(Messages()), caller, k, addr), x)
    {
      hide ListsOk, ReadyOk, WfRq, WfIpc, OnNone, S.Enqueue;
      ghost var j := TakeQueued(Messages(), caller, k, addr);
      InRange(Messages(), caller);
      Release(caller, x, addr, k);
      EnqueueSame(Messages(), j, Queues(), x);
      if procs[x].rts.Zero() {
        Enqueue(x);
      }
      UnlinkCaller(caller, x, xpp, k);
      assert Messages() == j;
    }

    method MiniReceive(caller: Pid, src: Endpoint, addr: nat, nonBlocking: bool) returns (result: Result)
      requires Rep() && caller < |procs|
      requires !Sending(Messages(), caller) ==> QueuesExact(Messages()) && ReadyExact(Messages(), Queues(), -1)
      modifies this
      ensures Rep() && (Abs(), result) == S.MiniReceive(old(Abs()), caller, src, addr, nonBlocking)
    {
      hide ListsOk, ReadyOk, WfIpc, WfRq, OnNone, QueuesExact, ReadyExact, S.Enqueue, S.Dequeue, FindNotify, FirstFrom,
        TakeNotice, TakeQueued;
      InRange(Messages(), caller);
      if !procs[caller].rts.sending {
        if !privs[procs[caller].priv].busy {
          var id := FindPending(procs[caller].priv, src);
          if id < |privs| {
            DeliverNotice(caller, procs[caller].priv, id, addr);
            return OK;
          }
        }
        var xpp, k := FindCaller(caller, src);
        if Deref(callerHead, qLink, xpp) != None {
          var x := Deref(callerHead, qLink, xpp).value;
          QueuedNotReady(Messages(), Queues(), caller, k);
          TakeCaller(caller, x, xpp, addr, k);
          return OK;
        }
      }
      if !nonBlocking {
        WaitToReceive(caller, src, addr);
        return OK;
      } else {
        return ENOTREADY;
      }
    }

    method WaitToReceive(caller: Pid, src: Endpoint, addr: nat)
      requires Rep() && caller < |procs|
      modifies this
      ensures Rep() && Abs() == Block(old(Abs()), caller).(ipc := ReceiveLater(old(Messages()), caller, src, addr))
    {
      hide ListsOk, ReadyOk, WfRq, S.Dequeue;
      ghost var i := Messages();
      var rp := procs[caller].(getfrom := src, messbuf := addr);
      if rp.rts.Zero() {
        Dequeue(caller);
      }
      procs := procs[caller := rp.(rts := rp.rts.(receiving := true))];
      assert Messages() == ReceiveLater(i, caller, src, addr);
    }

    method MiniNotify(caller: Pid, dst: Pid)
      requires Rep() && caller < |procs| && dst < |procs| && ReadyExact(Messages(), Queues(), -1)
      modifies this
      ensures Rep() && Abs() == S.MiniNotify(old(Abs()), caller, dst)
    {
      hide ListsOk, ReadyOk, WfIpc, WfRq, OnNone, ReadyExact, S.Enqueue, NoticeNow, NoticeLater;
      InRange(Messages(), dst);
      if procs[dst].rts.receiving && !procs[dst].rts.sending && !privs[procs[dst].priv].busy
         && (procs[dst].getfrom == Any || procs[dst].getfrom == Nr(caller)) {
        ReadyApart(Messages(), Queues(), dst);
        NotifyNow(caller, dst);
        if procs[dst].rts.Zero() {
          Enqueue(dst);
        }
      } else {
        MarkPending(caller, dst);
      }
    }

    method NotifyNow(caller: Pid, dst: Pid)
      requires Rep() && dst < |procs|
      modifies this`procs, this`privs, this`log
      ensures Rep() && |procs| == |old(procs)|
      ensures Abs() == old(Abs()).(ipc := NoticeNow(old(Messages()), caller, dst, realtime))
    {
      hide ListsOk, ReadyOk, WfRq;
      var dp := procs[dst];
      var m := BuildMess(Nr(caller), privs[dp.priv], realtime);
      privs := privs[dp.priv := ClearArg(Nr(caller), privs[dp.priv])];
      procs := procs[dst := dp.(mem := dp.mem[dp.messbuf := m], rts := dp.rts.(receiving := false))];
      log := log + [Notified(caller, dst), Noticed(Nr(caller), dst, m)];
      assert Messages() == NoticeNow(old(Messages()), caller, dst, realtime);
    }

    method MarkPending(caller: Pid, dst: Pid)
      requires Rep() && caller < |procs| && dst < |procs|
      modifies this`privs, this`log
      ensures Rep() && Abs() == old(Abs()).(ipc := NoticeLater(old(Messages()), caller, dst))
    {
      hide ListsOk, ReadyOk, WfRq;
      var id, v := procs[caller].priv, procs[dst].priv;
      privs := privs[v := privs[v].(pending := privs[v].pending[id := true])];
      log := log + [Notified(caller, dst)];
      assert Messages() == NoticeLater(old(Messages()), caller, dst);
    }

    method CopyMess(p: Pid, addr: nat) returns (m: Message)
      requires p < |procs|
      ensures m == Letter(Messages(), p, addr)
    {
      m := if addr in procs[p].mem then procs[p].mem[addr] else BLANK;
      m := m.(source := Nr(p));
    }

    // Kernel entries.  Each keeps the invariant of KernelInvariant.

    method Check(call: Function, srcDst: Endpoint, pointerOk: bool) returns (result: Result)
      requires Rep() && (HasDestination(call) ==> srcDst != Any)
      ensures result == CheckCall(Abs(), call, srcDst, pointerOk)
    {
      hide ListsOk, ReadyOk, WfIpc, WfRq;
      InRange(Messages(), procPtr);
      var mine := privs[procs[procPtr].priv];
      if call !in mine.traps || (srcDst.Nr? && IsKernel(srcDst.pid) && call != SENDREC && call != RECEIVE) {
        return ECALLDENIED;
      }
      if !((srcDst.Nr? && srcDst.pid < |procs|) || srcDst == Any || call == ECHO) {
        return EBADSRCDST;
      }
      if call != NOTIFY && !pointerOk {
        return EFAULT;
      }
      if HasDestination(call) {
        if procs[srcDst.pid].priv !in mine.ipcTo {
          return ECALLDENIED;
        }
        if procs[srcDst.pid].rts.Empty() {
          return EDEADDST;
        }
      }
      result := OK;
    }

    method MarkBusy(busy: bool)
      requires Rep()
      modifies this`privs
      ensures Rep() && Abs() == old(Abs()).(ipc := SetBusy(old(Messages()), procPtr, busy))
    {
      hide ListsOk, ReadyOk, WfRq;
      var v := procs[procPtr].priv;
      privs := privs[v := privs[v].(busy := busy)];
      assert Messages() == SetBusy(old(Messages()), procPtr, busy);
    }

    method PutMess(p: Pid, addr: nat, m: Message)
      requires Rep() && p < |procs|
      modifies this`procs
      ensures Rep() && Abs() == old(Abs()).(ipc := Store(old(Messages()), p, addr, m))
    {
      hide ListsOk, ReadyOk, WfRq;
      procs := procs[p := procs[p].(mem := procs[p].mem[addr := m])];
      assert Messages() == Store(old(Messages()), p, addr, m);
    }

    /** SENDREC: a send that falls through to a receive from the same process. */
    method SendThenReceive(dst: Pid, addr: nat, nonBlocking: bool) returns (result: Result)
      requires Rep() && Inv(Abs()) && dst < |procs| && dst != procPtr && Runnable(Messages(), procPtr)
      modifies this
      ensures Rep()
      ensures (Abs(), result) == S.SendRec(old(Abs()), old(procPtr), dst, addr, nonBlocking)
    {
      hide ListsOk, ReadyOk, WfRq, WfIpc, Inv, GraphInv, S.MiniSend, S.MiniReceive, QueuesExact, ReadyExact, SetBusy;
      ghost var st := Abs();
      var caller := procPtr;
      R.SetBusyKeeps(st, caller, true);
      BusyOnly(st.ipc, caller, true);
      MarkBusy(true);
      InvParts(Abs());
      R.SendrecHalfway(Abs(), caller, dst, addr, nonBlocking);
      assert Abs() == st.(ipc := SetBusy(st.ipc, caller, true));
      result := MiniSend(caller, dst, addr, nonBlocking);
      if result == OK {
        SendLength(st.(ipc := SetBusy(st.ipc, caller, true)), caller, dst, addr, nonBlocking);
        result := MiniReceive(caller, Nr(dst), addr, nonBlocking);
      }
    }

    method SysCall(call: Function, srcDst: Endpoint, addr: nat, nonBlocking: bool, pointerOk: bool)
      returns (result: Result)
      requires Rep() && Inv(Abs()) && T.Enabled(Abs(), T.Call(call, srcDst, addr, nonBlocking, pointerOk))
      modifies this
      ensures Rep() && Inv(Abs())
      ensures (Abs(), result) == S.SysCall(old(Abs()), call, srcDst, addr, nonBlocking, pointerOk)
    {
      hide ListsOk, ReadyOk, WfRq, WfIpc, Inv, GraphInv, S.MiniSend, S.MiniReceive, S.MiniNotify, S.SendRec,
        QueuesExact, ReadyExact, CheckCall, SetBusy, Store;
      ghost var st := Abs();
      R.SysCallKeeps(st, call, srcDst, addr, nonBlocking, pointerOk);
      InvParts(st);
      result := Check(call, srcDst, pointerOk);
      if result == OK {
        match call {
          case SEND =>
            result := MiniSend(procPtr, srcDst.pid, addr, nonBlocking);
          case SENDREC =>
            result := SendThenReceive(srcDst.pid, addr, nonBlocking);
          case RECEIVE =>
            BusyParts(st.ipc, st.rq, procPtr, false);
            MarkBusy(false);
            result := MiniReceive(procPtr, srcDst, addr, nonBlocking);
          case NOTIFY =>
            MiniNotify(procPtr, srcDst.pid);
          case ECHO =>
            var m := CopyMess(procPtr, addr);
            PutMess(procPtr, addr, m);
        }
      }
    }

    /** The reply of the system task. */
    method LockSend(dst: Pid, addr: nat) returns (result: Result)
      requires Rep() && Inv(Abs()) && T.Enabled(Abs(), T.Reply(dst, addr))
      modifies this
      ensures Rep() && Inv(Abs()) && Abs() == T.Next(old(Abs()), T.Reply(dst, addr))
      ensures Serving(old(log)).value.1 ==> result == OK
    {
      hide ListsOk, ReadyOk, WfRq, WfIpc, Inv, GraphInv, S.MiniSend, QueuesExact, ReadyExact, Serving;
      if Serving(log).value.1 {
        RequesterWaits(Abs(), dst, addr);
      }
      R.ReplyKeeps(Abs(), dst, addr);
      InvParts(Abs());
      result := MiniSend(procPtr, dst, addr, true);
    }

    method SendSig(p: Pid, sig: nat)
      requires Rep() && p < |procs| && ReadyExact(Messages(), Queues(), -1)
      modifies this
      ensures Rep() && Abs() == T.SendSig(old(Abs()), p, sig)
    {
      hide ListsOk, ReadyOk, WfRq, ReadyExact, S.MiniNotify;
      var v := procs[p].priv;
      ghost var i := Messages();
      privs := privs[v := privs[v].(sigs := privs[v].sigs + {sig})];
      assert Messages() == SetSigs(i, v, i.privs[v].sigs + {sig});
      SameReady(i, Messages(), Queues());
      MiniNotify(SYSTEM, p);
    }

    method CauseSig(p: Pid, sig: nat)
      requires Rep() && Inv(Abs()) && NR_TASKS <= p < |procs|
      modifies this
      ensures Rep() && Inv(Abs()) && Abs() == T.CauseSig(old(Abs()), p, sig)
    {
      hide ListsOk, ReadyOk, WfRq, WfIpc, Inv, T.SendSig, S.Dequeue, ReadyExact;
      ghost var st := Abs();
      R.CauseSigKeeps(st, p, sig);
      if sig !in procs[p].sigs {
        var sigs := procs[p].sigs + {sig};
        if procs[p].rts.signaled {
          SetProc(p, procs[p].rts, sigs);
        } else {
          if procs[p].rts.Zero() {
            Dequeue(p);
          }
          SetProc(p, procs[p].rts.(signaled := true, sigPending := true), sigs);
          R.CauseBlockKeeps(st, p, sig);
          InvParts(Abs());
          SendSig(PM, SIGKSIG);
        }
      }
    }

    method SetProc(p: Pid, rts: Rts, sigs: set<nat>)
      requires Rep() && p < |procs|
      modifies this`procs
      ensures |procs| == |old(procs)| > PM
      ensures Rep() && Abs() == old(Abs()).(ipc := SetFlags(old(Messages()), p, rts, sigs))
    {
      hide ListsOk, ReadyOk, WfRq;
      procs := procs[p := procs[p].(rts := rts, sigs := sigs)];
      assert Messages() == SetFlags(old(Messages()), p, rts, sigs);
    }

    method GetKsig() returns (proc: Ptr, pending: set<nat>)
      requires Rep() && Inv(Abs())
      modifies this
      ensures Rep() && Inv(Abs()) && Abs() == T.GetKsig(old(Abs()))
      ensures var p := T.FirstSignaled(old(Messages()), NR_TASKS);
              if p == |old(procs)| then proc == None else proc == Some(p) && pending == old(procs)[p].sigs
    {
      hide ListsOk, ReadyOk, WfRq, WfIpc, Inv;
      R.GetKsigKeeps(Abs());
      InRange(Messages(), procPtr);
      var rp := NR_TASKS;
      while rp < |procs|
        invariant rp <= |procs|
        invariant T.FirstSignaled(Messages(), NR_TASKS) == T.FirstSignaled(Messages(), rp)
        modifies {}
      {
        if procs[rp].rts.signaled {
          break;
        }
        rp := rp + 1;
      }
      if rp < |procs| {
        proc, pending := Some(rp), procs[rp].sigs;
        SetProc(rp, procs[rp].rts.(signaled := false), {});
      } else {
        proc, pending := None, {};
      }
    }

    method EndKsig(p: Pid) returns (result: Result)
      requires Rep() && Inv(Abs()) && p < |procs|
      modifies this
      ensures Rep() && Inv(Abs()) && (Abs(), result) == T.EndKsig(old(Abs()), p)
    {
      hide ListsOk, ReadyOk, WfRq, WfIpc, Inv, S.Enqueue, ReadyExact;
      R.EndKsigKeeps(Abs(), p);
      InvParts(Abs());
      if !procs[p].rts.sigPending {
        return EINVAL;
      }
      if !procs[p].rts.signaled {
        ReadyApart(Messages(), Queues(), p);
        SetProc(p, procs[p].rts.(sigPending := false), procs[p].sigs);
        if procs[p].rts.Zero() {
          Enqueue(p);
        }
      }
      result := OK;
    }

    /** T_STOP of do_trace. */
    method TraceStop(p: Pid)
      requires Rep() && Inv(Abs()) && NR_TASKS <= p < |procs|
      modifies this
      ensures Rep() && Inv(Abs()) && Abs() == T.Stop(old(Abs()), p)
    {
      hide ListsOk, ReadyOk, WfRq, WfIpc, Inv, S.Dequeue;
      R.StopKeeps(Abs(), p);
      if procs[p].rts.Zero() {
        Dequeue(p);
      }
      SetProc(p, procs[p].rts.(stopped := true), procs[p].sigs);
    }

    /** The links stand for queues that hold exactly the processes that can run. */
    ghost predicate InOrder()
      reads this
    {
      WfIpc(Messages()) && |slices| == |procs| && StandsForExact(LinksNow(), Messages(), Queues())
    }

    /** T_RESUME of do_trace.  If the process could run all the time, it is announced again. */
    method TraceResume(p: Pid)
      requires Rep() && Inv(Abs()) && NR_TASKS <= p < |procs|
      modifies this
      ensures !old(Runnable(Messages(), p)) ==> Rep() && Inv(Abs()) && Abs() == T.Resume(old(Abs()), p)
      ensures old(Runnable(Messages(), p)) ==>
                && Messages() == old(Messages()) && Announced(old(LinksNow()), old(Queues()), p)
                && (InOrder() <==> Harmless(old(Queues()), p))
    {
      hide ListsOk, ReadyOk, WfRq, WfIpc, Inv, S.Enqueue, ReadyExact, OnNone, Reschedule, Linkable, Relink, PickHead;
      ghost var st, l := Abs(), LinksNow();
      if !Runnable(Messages(), p) {
        R.ResumeKeeps(Abs(), p);
        InvParts(Abs());
        ReadyApart(Messages(), Queues(), p);
      } else {
        InvParts(Abs());
        StillRuns(Messages(), p);
        AgainExactIff(l, st.ipc, st.rq, p);
        NewPriority(st.ipc, st.rq, p);
        OnOne(st.ipc, st.rq, p);
      }
      SetProc(p, procs[p].rts.(stopped := false), procs[p].sigs);
      if procs[p].rts.Zero() {
        Enqueue(p);
      }
      if Runnable(st.ipc, p) {
        SameStanding(LinksNow(), st.ipc, Reschedule(st.rq, p), Queues());
      }
    }

    method SetPriority(p: Pid, q: nat)
      requires Rep() && p < |procs| && q < NR_SCHED_QUEUES
      modifies this`slices
      ensures Rep() && Abs() ==
              old(Abs()).(rq := old(Queues()).
              (slices := old(slices)[p := old(slices)[p].(maxPriority := q, priority := q)]))
    {
      hide ListsOk, ReadyOk, WfIpc;
      slices := slices[p := slices[p].(maxPriority := q, priority := q)];
    }

    /** The scheduling half of do_nice, `q` being the scaled priority. */
    method Nice(p: Pid, q: nat)
      requires Rep() && Inv(Abs()) && NR_TASKS <= p < |procs| && q <= MIN_USER_Q
      modifies this
      ensures Rep() && Inv(Abs()) && Abs() == T.Nice(old(Abs()), p, q)
    {
      hide ListsOk, ReadyOk, WfRq, WfIpc, Inv, S.Enqueue, S.Dequeue, ReadyExact;
      R.NiceKeeps(Abs(), p, q);
      InvParts(Abs());
      TakenOff(Messages(), Queues(), procPtr, p);
      Dequeue(p);
      SetPriority(p, q);
      if procs[p].rts.Zero() {
        Enqueue(p);
      }
    }

    /** The scheduling half of do_clocktick.  It puts prev_ptr on a queue whatever its flags. */
    method DoClocktick()
      requires Rep() && Inv(Abs())
      modifies this
      ensures Rep() && Abs() == T.DoClocktick(old(Abs()))
      ensures Inv(Abs()) <==> (old(T.Spent(Abs())) ==> old(Runnable(Messages(), prevPtr)))
    {
      hide ListsOk, ReadyOk, WfRq, WfIpc, Inv, S.Enqueue, S.Dequeue, ReadyExact;
      ClockWorkIff(Abs());
      InvParts(Abs());
      InRange(Messages(), prevPtr);
      TakenOff(Messages(), Queues(), procPtr, prevPtr);
      if slices[prevPtr].ticksLeft <= 0 && privs[procs[prevPtr].priv].preemptible {
        Dequeue(prevPtr);
        Enqueue(prevPtr);
      }
    }

    method Charge(p: Pid, ticks: nat)
      requires Rep() && p < |procs|
      modifies this`slices
      ensures Rep() && |slices| == |procs| && Abs() == old(Abs()).(rq := T.Charge(old(Queues()), p, ticks))
    {
      hide ListsOk, ReadyOk, WfIpc;
      slices := slices[p := slices[p].(ticksLeft := T.ToChar(slices[p].ticksLeft - ticks))];
    }

    method ClockHandler(ticks: nat)
      requires Rep() && Inv(Abs())
      modifies this
      ensures Rep() && Inv(Abs()) && Abs() == T.ClockTick(old(Abs()), ticks)
    {
      hide ListsOk, ReadyOk, WfRq, WfIpc, Inv, S.MiniNotify, ReadyExact, T.Charge;
      ghost var st := Abs();
      R.TickKeeps(st, ticks);
      TickParts(st, ticks);
      InRange(Messages(), procPtr);
      realtime := realtime + ticks;
      if privs[procs[procPtr].priv].preemptible {
        Charge(procPtr, ticks);
      }
      if !privs[procs[procPtr].priv].billable {
        Charge(billPtr, ticks);
      }
      assert Queues() == T.ChargeAll(st.ipc, st.rq, st.current, ticks);
      if nextTimeout <= realtime || slices[procPtr].ticksLeft <= 0 {
        prevPtr := procPtr;
        MiniNotify(HARDWARE, CLOCK);
      }
    }

    /** generic_handler. */
    method Interrupt(p: Pid, bit: nat)
      requires Rep() && Inv(Abs()) && p < |procs|
      modifies this
      ensures Rep() && Inv(Abs()) && Abs() == T.Interrupt(old(Abs()), p, bit)
    {
      hide ListsOk, ReadyOk, WfRq, Inv, ReadyExact, S.MiniNotify;
      R.InterruptKeeps(Abs(), p, bit);
      InvParts(Abs());
      var v := procs[p].priv;
      ghost var i := Messages();
      privs := privs[v := privs[v].(ints := privs[v].ints + {bit})];
      assert Messages() == SetInts(i, v, i.privs[v].ints + {bit});
      SameReady(i, Messages(), Queues());
      MiniNotify(HARDWARE, p);
    }

    /** Take `rc` off the caller queue of `d`, if it is on it. */
    method ForgetCaller(d: Pid, rc: Pid)
      requires ListsOk(callerHead, qLink, callers, |procs|) && d < |callers|
      modifies this`callerHead, this`qLink, this`callers
      ensures ListsOk(callerHead, qLink, callers, |procs|)
      ensures callers == old(callers)[d := Without(old(callers)[d], rc)]
    {
      hide ListsOk, Without;
      var xpp := Head(d);
      ghost var k := 0;
      ListsDerefAt(callerHead, qLink, callers, |procs|, d, 0);
      while Deref(callerHead, qLink, xpp) != None && Deref(callerHead, qLink, xpp) != Some(rc)
        invariant k <= |callers[d]| && xpp == PlaceAt(callers, d, k)
        invariant PlaceOk(callerHead, qLink, xpp)
        invariant Deref(callerHead, qLink, xpp) == if k < |callers[d]| then Some(callers[d][k]) else None
        invariant forall j :: 0 <= j < k ==> callers[d][j] != rc
        decreases |callers[d]| - k
        modifies {}
      {
        xpp := LinkOf(Deref(callerHead, qLink, xpp).value);
        k := k + 1;
        ListsDerefAt(callerHead, qLink, callers, |procs|, d, k);
      }
      if Deref(callerHead, qLink, xpp) == Some(rc) {
        WithoutAt(callers[d], k);
        UnlinkCaller(d, rc, xpp, k);
      } else {
        assert rc !in callers[d];
        assert callers == callers[d := Without(callers[d], rc)];
      }
    }

    /** The part of clear_proc that concerns scheduling and message queues. */
    method ClearProc(rc: Pid)
      requires Rep() && Inv(Abs()) && NR_TASKS <= rc < |procs|
      modifies this
      ensures Rep() && Inv(Abs()) && Abs() == T.Exit(old(Abs()), rc)
    {
      hide ListsOk, ReadyOk, WfRq, WfIpc, Inv, S.Dequeue, S.Clear;
      ghost var st := Abs();
      R.ExitKeeps(st, rc);
      InRange(Messages(), rc);
      if procs[rc].rts.Zero() {
        Dequeue(rc);
      }
      if procs[rc].rts.sending {
        ForgetEverywhere(rc);
      }
      ClearSpec(st.ipc, rc);
      log := log + S.Clear(st.ipc, rc).log[|st.ipc.log|..];
      procs := procs[rc := procs[rc].(rts := SLOT_FREE)];
      assert Messages() == S.Clear(st.ipc, rc);
    }

    method ForgetEverywhere(rc: Pid)
      requires ListsOk(callerHead, qLink, callers, |procs|) && |callers| == |procs|
      modifies this`callerHead, this`qLink, this`callers
      ensures ListsOk(callerHead, qLink, callers, |procs|)
      ensures |callers| == |procs|
      ensures forall d :: 0 <= d < |procs| ==> callers[d] == Without(old(callers)[d], rc)
    {
      hide ListsOk, Without;
      var rp := 0;
      while rp < |procs|
        invariant rp <= |procs| == |callers|
        invariant ListsOk(callerHead, qLink, callers, |procs|)
        invariant forall d :: 0 <= d < rp ==> callers[d] == Without(old(callers)[d], rc)
        invariant forall d :: rp <= d < |procs| ==> callers[d] == old(callers)[d]
      {
        ForgetCaller(rp, rc);
        rp := rp + 1;
      }
    }

    /** An alarm of `p`: the clock task notifies it. */
    method Alarm(p: Pid)
      requires Rep() && Inv(Abs()) && p < |procs|
      modifies this
      ensures Rep() && Inv(Abs()) && Abs() == S.MiniNotify(old(Abs()), CLOCK, p)
    {
      hide ListsOk, ReadyOk, WfRq, WfIpc, Inv, ReadyExact, S.MiniNotify;
      InRange(Messages(), p);
      R.NotifyKeeps(Abs(), CLOCK, p);
      InvParts(Abs());
      MiniNotify(CLOCK, p);
    }

    /** A system process is told about a signal. */
    method SystemSignal(p: Pid, sig: nat)
      requires Rep() && Inv(Abs()) && p < |procs|
      modifies this
      ensures Rep() && Inv(Abs()) && Abs() == T.SendSig(old(Abs()), p, sig)
    {
      hide ListsOk, ReadyOk, WfRq, WfIpc, Inv, ReadyExact, T.SendSig;
      R.SendSigKeeps(Abs(), p, sig);
      InvParts(Abs());
      SendSig(p, sig);
    }

    /** Every step of the transition system, done on the tables and links. */
    method Do(s: T.Step)
      requires Rep() && Inv(Abs()) && T.Enabled(Abs(), s)
      modifies this
      ensures Rep() && Inv(Abs()) && Abs() == T.Next(old(Abs()), s)
    {
      hide ListsOk, ReadyOk, WfRq, WfIpc, Inv, ReadyExact, S.MiniNotify, S.MiniSend, S.SysCall, T.Interrupt, T.SendSig,
        T.CauseSig, T.GetKsig, T.EndKsig, T.Stop, T.Resume, T.Nice, T.Exit, T.ClockTick, T.DoClocktick, Store;
      StepKeeps(Abs(), s);
      match s {
        case Call(call, ep, addr, nonBlocking, pointerOk) =>
          var _ := SysCall(call, ep, addr, nonBlocking, pointerOk);
        case Reply(d, addr) =>
          var _ := LockSend(d, addr);
        case Irq(p, bit) =>
          Interrupt(p, bit);
        case Alarm(p) =>
          Alarm(p);
        case SystemSignal(p, sig) =>
          SystemSignal(p, sig);
        case Signal(p, sig) =>
          CauseSig(p, sig);
        case GetSignal =>
          var _, _ := GetKsig();
        case EndSignal(p) =>
          var _ := EndKsig(p);
        case TraceStop(p) =>
          TraceStop(p);
        case TraceResume(p) =>
          TraceResume(p);
        case SetNice(p, q) =>
          Nice(p, q);
        case ProcessExit(p) =>
          ClearProc(p);
        case Tick(ticks) =>
          ClockHandler(ticks);
        case ClockWork =>
          DoClocktick();
        case SetTimeout(t) =>
          nextTimeout := t;
        case Restart =>
          procPtr := nextPtr;
        case Write(p, addr, m) =>
          PutMess(p, addr, m);
      }
    }
  }
}
