/** What the history of a run says: messages are conserved and served in order of arrival,
    notifications are kept until delivered, and a kernel call finds its caller waiting. */
module KernelHistory {
  import opened Options
  import opened KernelState

  /** The requester that SYSTEM is serving: the sender of the last request it was handed, unless
      SYSTEM answered it or it exited.  The flag tells whether that request was a blocking one. */
  function Serving(log: seq<Event>): Option<(Pid, bool)> {
    if log == [] then None else
      var rest := log[..|log| - 1];
      match log[|log| - 1]
      case Delivered(s, d, m, waits) => if d == SYSTEM then Some((s, waits)) else Serving(rest)
      case Accepted(s, d, m) => if s == SYSTEM then None else Serving(rest)
      case Exited(p) => if Serving(rest).Some? && Serving(rest).value.0 == p then None else Serving(rest)
      case _ => Serving(rest)
  }

  /** The messages that mini_send accepted from `s`, with their destinations, in order. */
  function AcceptedFrom(log: seq<Event>, s: Pid): seq<(Pid, Message)> {
    if log == [] then [] else
      var e := log[|log| - 1];
      AcceptedFrom(log[..|log| - 1], s) + if e.Accepted? && e.src == s then [(e.dst, e.m)] else []
  }

  /** The messages of `s` that reached their destination or were dropped when `s` exited. */
  function TakenFrom(log: seq<Event>, s: Pid): seq<(Pid, Message)> {
    if log == [] then [] else
      var e := log[|log| - 1];
      TakenFrom(log[..|log| - 1], s) + if (e.Delivered? || e.Dropped?) && e.src == s then [(e.dst, e.m)] else []
  }

  /** One more than the position of the last message accepted from `s`, or 0. */
  function LastAccept(log: seq<Event>, s: Pid): (n: nat)
    ensures n <= |log|
  {
    if log == [] then 0
    else if log[|log| - 1].Accepted? && log[|log| - 1].src == s then |log|
    else LastAccept(log[..|log| - 1], s)
  }

  lemma Append(log: seq<Event>, e: Event, s: Pid)
    ensures AcceptedFrom(log + [e], s) == AcceptedFrom(log, s) +
            if e.Accepted? && e.src == s then [(e.dst, e.m)] else []
    ensures TakenFrom(log + [e], s) == TakenFrom(log, s) +
            if (e.Delivered? || e.Dropped?) && e.src == s then [(e.dst, e.m)] else []
    ensures LastAccept(log + [e], s) == if e.Accepted? && e.src == s then |log| + 1 else LastAccept(log, s)
  {
    assert (log + [e])[..|log|] == log;
  }

  lemma AppendServing(log: seq<Event>, e: Event)
    ensures !e.Delivered? && !e.Accepted? && !e.Exited? ==> Serving(log + [e]) == Serving(log)
    ensures e.Delivered? ==> Serving(log + [e]) == if e.dst == SYSTEM then Some((e.src, e.waits)) else Serving(log)
    ensures e.Accepted? ==> Serving(log + [e]) == if e.src == SYSTEM then None else Serving(log)
    ensures e.Exited? ==>
            Serving(log + [e]) ==
            if Serving(log).Some? && Serving(log).value.0 == e.p then None else Serving(log)
  {
    assert (log + [e])[..|log|] == log;
  }

  // Conservation of messages.

  /** The message of `s` that is still on a queue. */
  function Unsent(i: Ipc, s: Pid): seq<(Pid, Message)>
    requires WfIpc(i) && s < |i.procs|
  {
    if Sending(i, s) then [(i.procs[s].sendto, Letter(i, s, i.procs[s].messbuf))] else []
  }

  /** What was accepted from a process is, in order and with the same contents, what was taken
      from it, followed by the message it is blocked on. */
  ghost predicate Conserved(i: Ipc)
    requires WfIpc(i)
  {
    forall s :: IsPid(i, s) ==> AcceptedFrom(i.log, s) == TakenFrom(i.log, s) + Unsent(i, s)
  }

  predicate Quiet(e: Event) {
    e.Notified? || e.Noticed? || e.Exited?
  }

  lemma {:induction false} AppendQuiet(log: seq<Event>, es: seq<Event>, s: Pid)
    requires forall k :: 0 <= k < |es| ==> Quiet(es[k])
    ensures AcceptedFrom(log + es, s) == AcceptedFrom(log, s)
    ensures TakenFrom(log + es, s) == TakenFrom(log, s)
    ensures LastAccept(log + es, s) == LastAccept(log, s)
    decreases |es|
  {
    if es == [] {
      assert log + es == log;
    } else {
      AppendQuiet(log + [es[0]], es[1..], s);
      Append(log, es[0], s);
      assert log + es == log + [es[0]] + es[1..];
    }
  }

  lemma ConservedQuiet(i: Ipc, j: Ipc, es: seq<Event>)
    requires WfIpc(i) && WfIpc(j) && |j.procs| == |i.procs| && Conserved(i)
    requires j.log == i.log + es && (forall k :: 0 <= k < |es| ==> Quiet(es[k]))
    requires forall s :: IsPid(i, s) ==> Unsent(j, s) == Unsent(i, s)
    ensures Conserved(j)
  {
    forall s | IsPid(j, s)
      ensures AcceptedFrom(j.log, s) == TakenFrom(j.log, s) + Unsent(j, s)
    {
      assert IsPid(i, s);
      AppendQuiet(i.log, es, s);
    }
  }

  lemma ConservedSendNow(i: Ipc, s: Pid, d: Pid, addr: nat, waits: bool)
    requires WfIpc(i) && Conserved(i) && s < |i.procs| && d < |i.procs|
    requires !Sending(i, s) && !Sending(i, d)
    ensures Conserved(SendNow(i, s, d, addr, waits))
  {
    var j := SendNow(i, s, d, addr, waits);
    var m := Letter(i, s, addr);
    forall x | IsPid(j, x)
      ensures AcceptedFrom(j.log, x) == TakenFrom(j.log, x) + Unsent(j, x)
    {
      assert IsPid(i, x) && Unsent(j, x) == Unsent(i, x);
      assert j.log == (i.log + [Accepted(s, d, m)]) + [Delivered(s, d, m, waits)];
      Append(i.log, Accepted(s, d, m), x);
      Append(i.log + [Accepted(s, d, m)], Delivered(s, d, m, waits), x);
    }
  }

  lemma ConservedSendLater(i: Ipc, s: Pid, d: Pid, addr: nat)
    requires WfIpc(i) && Conserved(i) && s < |i.procs| && d < |i.procs| && !Sending(i, s)
    ensures Conserved(SendLater(i, s, d, addr))
  {
    var j := SendLater(i, s, d, addr);
    forall x | IsPid(j, x)
      ensures AcceptedFrom(j.log, x) == TakenFrom(j.log, x) + Unsent(j, x)
    {
      assert IsPid(i, x);
      Append(i.log, Accepted(s, d, Letter(i, s, addr)), x);
    }
  }

  lemma ConservedTakeQueued(i: Ipc, r: Pid, k: nat, addr: nat)
    requires WfIpc(i) && Conserved(i) && r < |i.procs| && k < |i.callers[r]| && !Sending(i, r)
    requires Sending(i, i.callers[r][k]) && i.procs[i.callers[r][k]].sendto == r
    ensures Conserved(TakeQueued(i, r, k, addr))
  {
    var j := TakeQueued(i, r, k, addr);
    var s := i.callers[r][k];
    forall x | IsPid(j, x)
      ensures AcceptedFrom(j.log, x) == TakenFrom(j.log, x) + Unsent(j, x)
    {
      assert IsPid(i, x);
      Append(i.log, Delivered(s, r, Letter(i, s, i.procs[s].messbuf), true), x);
      assert x != s ==> Unsent(j, x) == Unsent(i, x);
    }
  }

  lemma ConservedClear(i: Ipc, p: Pid)
    requires WfIpc(i) && Conserved(i) && p < |i.procs|
    ensures Conserved(Clear(i, p))
  {
    var j := Clear(i, p);
    if Sending(i, p) {
      var e := Dropped(p, i.procs[p].sendto, Letter(i, p, i.procs[p].messbuf));
      forall x | IsPid(j, x)
        ensures AcceptedFrom(j.log, x) == TakenFrom(j.log, x) + Unsent(j, x)
      {
        assert IsPid(i, x);
        assert j.log == (i.log + [e]) + [Exited(p)];
        Append(i.log, e, x);
        Append(i.log + [e], Exited(p), x);
        assert x != p ==> Unsent(j, x) == Unsent(i, x);
      }
    } else {
      assert j.log == i.log + [Exited(p)];
      ConservedQuiet(i, j, [Exited(p)]);
    }
  }

  // Order of arrival.

  /** Each queue is in the order in which its messages were accepted. */
  ghost predicate InOrder(i: Ipc)
    requires WfIpc(i)
  {
    forall d, a, b :: IsPid(i, d) && 0 <= a < b < |i.callers[d]| ==>
      LastAccept(i.log, i.callers[d][a]) < LastAccept(i.log, i.callers[d][b])
  }

  /** A queue that lost members keeps the order of the rest. */
  ghost predicate Thinner(q: seq<Pid>, r: seq<Pid>) {
    |r| <= |q| && exists f: seq<nat> :: Picks(q, r, f)
  }

  ghost predicate Picks(q: seq<Pid>, r: seq<Pid>, f: seq<nat>) {
    && |f| == |r|
    && (forall a :: 0 <= a < |f| ==> f[a] < |q| && r[a] == q[f[a]])
    && (forall a, b :: 0 <= a < b < |f| ==> f[a] < f[b])
  }

  lemma ThinnerWithoutOne(q: seq<Pid>, k: nat)
    requires k < |q|
    ensures Thinner(q, q[..k] + q[k + 1..])
  {
    var f := seq(|q| - 1, a => if a < k then a else a + 1);
    assert Picks(q, q[..k] + q[k + 1..], f);
  }

  lemma ThinnerSame(q: seq<Pid>)
    ensures Thinner(q, q)
  {
    assert Picks(q, q, seq(|q|, a => a));
  }

  lemma ThinnerCons(q: seq<Pid>, r: seq<Pid>)
    requires q != [] && Thinner(q[1..], r)
    ensures Thinner(q, [q[0]] + r)
  {
    var f :| Picks(q[1..], r, f);
    var g := [0] + seq(|f|, a requires 0 <= a < |f| => f[a] + 1);
    assert Picks(q, [q[0]] + r, g);
  }

  lemma {:induction false} ThinnerWithout(q: seq<Pid>, p: Pid)
    ensures Thinner(q, Without(q, p))
  {
    if q == [] {
      ThinnerSame(q);
    } else if q[0] == p {
      ThinnerWithoutOne(q, 0);
      assert q[..0] + q[1..] == q[1..];
    } else {
      ThinnerWithout(q[1..], p);
      ThinnerCons(q, Without(q[1..], p));
    }
  }

  lemma InOrderThinner(i: Ipc, j: Ipc)
    requires WfIpc(i) && WfIpc(j) && |i.procs| == |j.procs| && InOrder(i)
    requires forall x :: IsPid(i, x) ==> LastAccept(j.log, x) == LastAccept(i.log, x)
    requires forall d :: IsPid(i, d) ==> Thinner(i.callers[d], j.callers[d])
    ensures InOrder(j)
  {
    forall d, a, b | IsPid(j, d) && 0 <= a < b < |j.callers[d]|
      ensures LastAccept(j.log, j.callers[d][a]) < LastAccept(j.log, j.callers[d][b])
    {
      assert IsPid(i, d) && IsPid(i, j.callers[d][a]) && IsPid(i, j.callers[d][b]);
      var f :| Picks(i.callers[d], j.callers[d], f);
      assert f[a] < f[b];
    }
  }

  lemma InOrderQuiet(i: Ipc, j: Ipc, es: seq<Event>)
    requires WfIpc(i) && WfIpc(j) && InOrder(i) && j.callers == i.callers
    requires j.log == i.log + es && (forall k :: 0 <= k < |es| ==> Quiet(es[k]))
    ensures InOrder(j)
  {
    forall x
      ensures LastAccept(j.log, x) == LastAccept(i.log, x)
    {
      AppendQuiet(i.log, es, x);
    }
    assert forall d :: IsPid(j, d) ==> IsPid(i, d);
  }

  lemma InOrderSendNow(i: Ipc, s: Pid, d: Pid, addr: nat, waits: bool)
    requires WfIpc(i) && InOrder(i) && s < |i.procs| && d < |i.procs|
    requires forall x :: IsPid(i, x) ==> s !in i.callers[x]
    ensures InOrder(SendNow(i, s, d, addr, waits))
  {
    var j := SendNow(i, s, d, addr, waits);
    var m := Letter(i, s, addr);
    forall e, a, b | IsPid(j, e) && 0 <= a < b < |j.callers[e]|
      ensures LastAccept(j.log, j.callers[e][a]) < LastAccept(j.log, j.callers[e][b])
    {
      assert IsPid(i, e) && j.callers[e] == i.callers[e];
      assert j.log == (i.log + [Accepted(s, d, m)]) + [Delivered(s, d, m, waits)];
      assert j.callers[e][a] != s && j.callers[e][b] != s;
      Append(i.log, Accepted(s, d, m), j.callers[e][a]);
      Append(i.log + [Accepted(s, d, m)], Delivered(s, d, m, waits), j.callers[e][a]);
      Append(i.log, Accepted(s, d, m), j.callers[e][b]);
      Append(i.log + [Accepted(s, d, m)], Delivered(s, d, m, waits), j.callers[e][b]);
    }
  }

  lemma InOrderSendLater(i: Ipc, s: Pid, d: Pid, addr: nat)
    requires WfIpc(i) && InOrder(i) && s < |i.procs| && d < |i.procs|
    requires forall x :: IsPid(i, x) ==> s !in i.callers[x]
    ensures InOrder(SendLater(i, s, d, addr))
  {
    var j := SendLater(i, s, d, addr);
    var e := Accepted(s, d, Letter(i, s, addr));
    forall c, a, b | IsPid(j, c) && 0 <= a < b < |j.callers[c]|
      ensures LastAccept(j.log, j.callers[c][a]) < LastAccept(j.log, j.callers[c][b])
    {
      assert IsPid(i, c);
      Append(i.log, e, j.callers[c][a]);
      Append(i.log, e, j.callers[c][b]);
      assert j.callers[c][a] == i.callers[c][a] && i.callers[c][a] != s;
      if b < |i.callers[c]| {
        assert j.callers[c][b] == i.callers[c][b] && i.callers[c][b] != s;
      }
    }
  }

  lemma InOrderTakeQueued(i: Ipc, r: Pid, k: nat, addr: nat)
    requires WfIpc(i) && InOrder(i) && r < |i.procs| && k < |i.callers[r]|
    ensures InOrder(TakeQueued(i, r, k, addr))
  {
    var j := TakeQueued(i, r, k, addr);
    var s := i.callers[r][k];
    forall x | IsPid(i, x)
      ensures LastAccept(j.log, x) == LastAccept(i.log, x)
    {
      Append(i.log, Delivered(s, r, Letter(i, s, i.procs[s].messbuf), true), x);
    }
    forall d | IsPid(i, d)
      ensures Thinner(i.callers[d], j.callers[d])
    {
      ThinnerSame(i.callers[d]);
      ThinnerWithoutOne(i.callers[r], k);
    }
    InOrderThinner(i, j);
  }

  lemma InOrderClear(i: Ipc, p: Pid)
    requires WfIpc(i) && InOrder(i) && p < |i.procs|
    ensures InOrder(Clear(i, p))
  {
    var j := Clear(i, p);
    var e := Dropped(p, i.procs[p].sendto, Letter(i, p, i.procs[p].messbuf));
    forall x | IsPid(i, x)
      ensures LastAccept(j.log, x) == LastAccept(i.log, x)
    {
      Append(i.log, e, x);
      Append(i.log + [e], Exited(p), x);
      Append(i.log, Exited(p), x);
      assert j.log == (i.log + [e]) + [Exited(p)] || j.log == i.log + [Exited(p)];
    }
    forall d | IsPid(i, d)
      ensures Thinner(i.callers[d], j.callers[d])
    {
      ThinnerSame(i.callers[d]);
      ThinnerWithout(i.callers[d], p);
    }
    InOrderThinner(i, j);
  }

  // Notifications.

  /** Event `e` delivers a notification of `src` to a process with the privileges of `d`. */
  predicate Answers(i: Ipc, e: Event, src: Pid, d: Pid)
    requires WfIpc(i) && src < |i.procs| && d < |i.procs|
  {
    && e.Noticed?
    && (e.from == Nr(src) || e.from == i.privs[i.procs[src].priv].owner)
    && e.dst < |i.procs| && i.procs[e.dst].priv == i.procs[d].priv
  }

  ghost predicate Honoured(i: Ipc, k: nat)
    requires WfIpc(i) && k < |i.log| && i.log[k].Notified? && i.log[k].src < |i.procs| && i.log[k].dst < |i.procs|
  {
    || i.privs[i.procs[i.log[k].dst].priv].pending[i.procs[i.log[k].src].priv]
    || exists n :: k < n < |i.log| && Answers(i, i.log[n], i.log[k].src, i.log[k].dst)
  }

  /** Every notification ever requested is pending or was delivered after the request. */
  ghost predicate NotifiesKept(i: Ipc)
    requires WfIpc(i)
  {
    forall k :: 0 <= k < |i.log| && i.log[k].Notified? ==>
      i.log[k].src < |i.procs| && i.log[k].dst < |i.procs| && Honoured(i, k)
  }

  ghost predicate SameOwners(i: Ipc, j: Ipc)
    requires WfIpc(i) && WfIpc(j)
  {
    && |i.procs| == |j.procs| && |i.privs| == |j.privs|
    && (forall p :: IsPid(i, p) ==> j.procs[p].priv == i.procs[p].priv)
    && (forall v :: 0 <= v < |i.privs| ==> j.privs[v].owner == i.privs[v].owner)
  }

  /** The history grew and only bits answered by the new events were cleared. */
  ghost predicate BitsAnswered(i: Ipc, j: Ipc)
    requires WfIpc(i) && WfIpc(j) && SameOwners(i, j)
  {
    && |i.log| <= |j.log| && j.log[..|i.log|] == i.log
    && forall s, d :: IsPid(i, s) && IsPid(i, d) && i.privs[i.procs[d].priv].pending[i.procs[s].priv] ==>
         || j.privs[i.procs[d].priv].pending[i.procs[s].priv]
         || exists n :: |i.log| <= n < |j.log| && Answers(j, j.log[n], s, d)
  }

  lemma NotifiesStillKept(i: Ipc, j: Ipc)
    requires WfIpc(i) && WfIpc(j) && SameOwners(i, j) && NotifiesKept(i) && BitsAnswered(i, j)
    requires forall k :: |i.log| <= k < |j.log| && j.log[k].Notified? ==>
             j.log[k].src < |j.procs| &&
             j.log[k].dst < |j.procs| && Honoured(j, k)
    ensures NotifiesKept(j)
  {
    forall k | 0 <= k < |j.log| && j.log[k].Notified?
      ensures j.log[k].src < |j.procs| && j.log[k].dst < |j.procs| && Honoured(j, k)
    {
      if k < |i.log| {
        assert j.log[k] == j.log[..|i.log|][k] == i.log[k];
        var s, d := i.log[k].src, i.log[k].dst;
        assert IsPid(i, s) && IsPid(i, d) && Honoured(i, k);
        if !i.privs[i.procs[d].priv].pending[i.procs[s].priv] {
          var n :| k < n < |i.log| && Answers(i, i.log[n], s, d);
          assert j.log[n] == j.log[..|i.log|][n] == i.log[n];
          assert IsPid(i, i.log[n].dst);
          assert Answers(j, j.log[n], s, d);
        }
      }
    }
  }

  lemma KeptSameBits(i: Ipc, j: Ipc)
    requires WfIpc(i) && WfIpc(j) && SameOwners(i, j) && NotifiesKept(i)
    requires |i.log| <= |j.log| && j.log[..|i.log|] == i.log
    requires forall v :: 0 <= v < |i.privs| ==> j.privs[v].pending == i.privs[v].pending
    requires forall k :: |i.log| <= k < |j.log| ==> !j.log[k].Notified?
    ensures NotifiesKept(j)
  {
    NotifiesStillKept(i, j);
  }

  lemma KeptNoticeNow(i: Ipc, src: Pid, d: Pid, now: int)
    requires WfIpc(i) && NotifiesKept(i) && src < |i.procs| && d < |i.procs|
    ensures NotifiesKept(NoticeNow(i, src, d, now))
  {
    var j := NoticeNow(i, src, d, now);
    assert j.log[..|i.log|] == i.log;
    assert IsPid(i, d) && Answers(j, j.log[|i.log| + 1], src, d);
    NotifiesStillKept(i, j);
  }

  lemma KeptNoticeLater(i: Ipc, src: Pid, d: Pid)
    requires WfIpc(i) && NotifiesKept(i) && src < |i.procs| && d < |i.procs|
    ensures NotifiesKept(NoticeLater(i, src, d))
  {
    var j := NoticeLater(i, src, d);
    assert j.log[..|i.log|] == i.log;
    NotifiesStillKept(i, j);
  }

  lemma KeptTakeNotice(i: Ipc, r: Pid, id: nat, addr: nat, now: int)
    requires WfIpc(i) && NotifiesKept(i) && r < |i.procs| && id < |i.privs|
    ensures NotifiesKept(TakeNotice(i, r, id, addr, now))
  {
    var j := TakeNotice(i, r, id, addr, now);
    assert j.log[..|i.log|] == i.log;
    forall s, d | IsPid(i, s) && IsPid(i, d) && i.privs[i.procs[d].priv].pending[i.procs[s].priv]
      ensures j.privs[i.procs[d].priv].pending[i.procs[s].priv]
           || exists n :: |i.log| <= n < |j.log| && Answers(j, j.log[n], s, d)
    {
      if i.procs[d].priv == i.procs[r].priv && i.procs[s].priv == id {
        assert IsPid(i, r) && Answers(j, j.log[|i.log|], s, d);
      }
    }
    NotifiesStillKept(i, j);
  }

  // Kernel calls.

  /** `r` is blocked until SYSTEM answers it: no message but SYSTEM's and no notification at all
      can release it. */
  predicate AwaitsReply(i: Ipc, r: Pid)
    requires WfIpc(i) && r < |i.procs|
  {
    && i.procs[r].rts.receiving && !i.procs[r].rts.sending
    && i.procs[r].getfrom == Nr(SYSTEM)
    && i.privs[i.procs[r].priv].busy
  }

  /** A process blocked sending to a kernel task is in the middle of a SENDREC. */
  predicate InSendrec(i: Ipc, x: Pid)
    requires WfIpc(i) && x < |i.procs|
  {
    && i.procs[x].rts.receiving
    && i.procs[x].getfrom == Nr(i.procs[x].sendto)
    && i.privs[i.procs[x].priv].busy
  }

  /** The invariant behind the reply of a kernel call; process `but` is in the middle of a trap. */
  ghost predicate CallInv(i: Ipc, but: int)
    requires WfIpc(i)
  {
    && !Sending(i, SYSTEM)
    && (forall x :: IsPid(i, x) && x != but && Sending(i, x) && IsKernel(i.procs[x].sendto) ==> InSendrec(i, x))
    && (Serving(i.log).Some? && Serving(i.log).value.1 && Serving(i.log).value.0 != but ==>
          IsPid(i, Serving(i.log).value.0) && AwaitsReply(i, Serving(i.log).value.0))
  }
}
