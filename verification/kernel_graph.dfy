/** Who waits for whom: the caller queues, the graph of SENDING processes and the promise that a
    sender and a willing receiver are never both left blocked. */
module KernelGraph {
  import opened Options
  import opened KernelState

  ghost predicate NoDup(s: seq<Pid>) {
    forall j, k :: 0 <= j < k < |s| ==> s[j] != s[k]
  }

  /** The queue of a process holds exactly those SENDING to it, each once. */
  ghost predicate QueuesExact(i: Ipc)
    requires WfIpc(i)
  {
    && (forall d, x :: IsPid(i, d) && IsPid(i, x) ==>
          (x in i.callers[d] <==> Sending(i, x) && i.procs[x].sendto == d))
    && (forall d :: IsPid(i, d) ==> NoDup(i.callers[d]))
  }

  /** The walk along p_sendto from `p` meets a process that is not SENDING after `n` steps. */
  predicate Stops(i: Ipc, p: Pid, n: nat)
    requires WfIpc(i) && p < |i.procs|
    decreases n
  {
    if n == 0 then !Sending(i, p) else Sending(i, p) && Stops(i, i.procs[p].sendto, n - 1)
  }

  ghost predicate WalkEnds(i: Ipc, p: Pid)
    requires WfIpc(i) && p < |i.procs|
  {
    exists n: nat :: Stops(i, p, n)
  }

  ghost predicate WalksEnd(i: Ipc)
    requires WfIpc(i)
  {
    forall p :: IsPid(i, p) ==> WalkEnds(i, p)
  }

  /** A process that is still SENDING while it already waits to RECEIVE waits for its destination. */
  ghost predicate ReplyExpected(i: Ipc)
    requires WfIpc(i)
  {
    forall p :: IsPid(i, p) && Sending(i, p) && i.procs[p].rts.receiving ==> i.procs[p].getfrom == Nr(i.procs[p].sendto)
  }

  /** No rendezvous is missed. */
  ghost predicate NoneMissed(i: Ipc)
    requires WfIpc(i)
  {
    forall s :: IsPid(i, s) && Sending(i, s) ==> !WaitsFor(i, i.procs[s].sendto, s)
  }

  ghost predicate GraphInv(i: Ipc) {
    WfIpc(i) && QueuesExact(i) && WalksEnd(i) && ReplyExpected(i) && NoneMissed(i)
  }

  // Walks.

  lemma {:induction false} StopsOnce(i: Ipc, p: Pid, m: nat, n: nat)
    requires WfIpc(i) && p < |i.procs|
    requires Stops(i, p, m) && Stops(i, p, n)
    ensures m == n
    decreases m
  {
    if m > 0 && n > 0 {
      StopsOnce(i, i.procs[p].sendto, m - 1, n - 1);
    }
  }

  lemma {:induction false} LeadsThenStops(i: Ipc, a: Pid, b: Pid, n: nat, m: nat)
    requires WfIpc(i) && a < |i.procs|
    requires Leads(i, a, b, n) && Stops(i, a, m)
    ensures b < |i.procs| && n <= m && Stops(i, b, m - n)
    decreases n
  {
    if n > 0 {
      LeadsThenStops(i, i.procs[a].sendto, b, n - 1, m - 1);
    }
  }

  /** The graph of SENDING processes has no cycle. */
  ghost predicate Acyclic(i: Ipc)
    requires WfIpc(i)
  {
    forall p, n: nat :: IsPid(i, p) && n > 0 ==> !Leads(i, p, p, n)
  }

  lemma EndsMeansAcyclic(i: Ipc)
    requires WfIpc(i) && WalksEnd(i)
    ensures Acyclic(i)
  {
    forall p, n: nat | IsPid(i, p) && n > 0
      ensures !Leads(i, p, p, n)
    {
      if Leads(i, p, p, n) {
        assert WalkEnds(i, p);
        var m: nat :| Stops(i, p, m);
        LeadsThenStops(i, p, p, n, m);
        StopsOnce(i, p, m, m - n);
      }
    }
  }

  // A message-passing state with the same senders and no new receivers.

  ghost predicate SameSenders(i: Ipc, j: Ipc)
    requires WfIpc(i) && WfIpc(j)
  {
    && |i.procs| == |j.procs|
    && forall p :: IsPid(i, p) ==>
      j.procs[p].rts.sending == i.procs[p].rts.sending &&
      j.procs[p].sendto == i.procs[p].sendto
  }

  ghost predicate NoNewWaits(i: Ipc, j: Ipc)
    requires WfIpc(i) && WfIpc(j)
  {
    && SameSenders(i, j)
    && i.callers == j.callers
    && forall p :: IsPid(i, p) && j.procs[p].rts.receiving ==>
      i.procs[p].rts.receiving &&
      j.procs[p].getfrom == i.procs[p].getfrom
  }

  lemma {:induction false} StopsSame(i: Ipc, j: Ipc, p: Pid, n: nat)
    requires WfIpc(i) && WfIpc(j) && SameSenders(i, j) && p < |i.procs|
    requires Stops(i, p, n)
    ensures Stops(j, p, n)
    decreases n
  {
    if n > 0 {
      StopsSame(i, j, i.procs[p].sendto, n - 1);
    }
  }

  lemma EndsSame(i: Ipc, j: Ipc)
    requires WfIpc(i) && WfIpc(j) && SameSenders(i, j) && WalksEnd(i)
    ensures WalksEnd(j)
  {
    forall p | IsPid(j, p)
      ensures WalkEnds(j, p)
    {
      assert IsPid(i, p) && WalkEnds(i, p);
      var n: nat :| Stops(i, p, n);
      StopsSame(i, j, p, n);
    }
  }

  lemma GraphFewerWaits(i: Ipc, j: Ipc)
    requires GraphInv(i) && WfIpc(j) && NoNewWaits(i, j)
    ensures GraphInv(j)
  {
    EndsSame(i, j);
    forall d, x | IsPid(j, d) && IsPid(j, x)
      ensures x in j.callers[d] <==> Sending(j, x) && j.procs[x].sendto == d
    {
      assert IsPid(i, d) && IsPid(i, x);
    }
    forall d | IsPid(j, d)
      ensures NoDup(j.callers[d])
    {
      assert IsPid(i, d);
    }
    forall p | IsPid(j, p) && Sending(j, p) && j.procs[p].rts.receiving
      ensures j.procs[p].getfrom == Nr(j.procs[p].sendto)
    {
      assert IsPid(i, p) && Sending(i, p);
    }
    forall s | IsPid(j, s) && Sending(j, s)
      ensures !WaitsFor(j, j.procs[s].sendto, s)
    {
      assert IsPid(i, s) && Sending(i, s) && IsPid(i, i.procs[s].sendto);
    }
  }

  // A new sender.

  /** In `j`, process `s`, which was not SENDING in `i`, is SENDING to `d`. */
  ghost predicate NewSender(i: Ipc, j: Ipc, s: Pid, d: Pid)
    requires WfIpc(i) && WfIpc(j)
  {
    && |i.procs| == |j.procs|
    && s < |i.procs| && d < |i.procs|
    && !i.procs[s].rts.sending && j.procs[s].rts.sending && j.procs[s].sendto == d
    && forall p :: IsPid(i, p) && p != s ==>
      j.procs[p].rts.sending == i.procs[p].rts.sending &&
      j.procs[p].sendto == i.procs[p].sendto
  }

  /** A walk that ended in `i` either ended at `s` or still ends in `j`. */
  lemma {:induction false} WalkWithNewSender(i: Ipc, j: Ipc, s: Pid, d: Pid, p: Pid, n: nat)
    requires WfIpc(i) && WfIpc(j) && NewSender(i, j, s, d) && p < |i.procs|
    requires Stops(i, p, n)
    ensures Leads(i, p, s, n) || Stops(j, p, n)
    decreases n
  {
    assert IsPid(i, p);
    if n > 0 {
      WalkWithNewSender(i, j, s, d, i.procs[p].sendto, n - 1);
    }
  }

  lemma {:induction false} LeadsSurvives(i: Ipc, j: Ipc, s: Pid, d: Pid, p: Pid, n: nat)
    requires WfIpc(i) && WfIpc(j) && NewSender(i, j, s, d) && p < |i.procs|
    requires Leads(i, p, s, n)
    ensures Leads(j, p, s, n)
    decreases n
  {
    assert IsPid(i, p);
    if n > 0 {
      LeadsSurvives(i, j, s, d, i.procs[p].sendto, n - 1);
    }
  }

  lemma {:induction false} StopsBeyond(j: Ipc, p: Pid, s: Pid, n: nat, m: nat)
    requires WfIpc(j) && p < |j.procs| && s < |j.procs|
    requires Leads(j, p, s, n) && Stops(j, s, m)
    ensures Stops(j, p, n + m)
    decreases n
  {
    if n > 0 {
      StopsBeyond(j, j.procs[p].sendto, s, n - 1, m);
    }
  }

  lemma EndsWithNewSender(i: Ipc, j: Ipc, s: Pid, d: Pid)
    requires WfIpc(i) && WfIpc(j) && NewSender(i, j, s, d)
    requires WalksEnd(i) && s != d && !WouldLock(i, s, d)
    ensures WalksEnd(j)
  {
    assert IsPid(i, d) && WalkEnds(i, d);
    var nd: nat :| Stops(i, d, nd);
    WalkWithNewSender(i, j, s, d, d, nd);
    assert nd == 0 ==> !Leads(i, d, s, nd);
    assert Stops(j, d, nd);
    assert Stops(j, s, nd + 1);
    forall p | IsPid(j, p)
      ensures WalkEnds(j, p)
    {
      assert IsPid(i, p) && WalkEnds(i, p);
      var n: nat :| Stops(i, p, n);
      WalkWithNewSender(i, j, s, d, p, n);
      if Leads(i, p, s, n) {
        LeadsSurvives(i, j, s, d, p, n);
        StopsBeyond(j, p, s, n, nd + 1);
      }
    }
  }

  /** The deadlock walk of mini_send answers exactly the right question: blocking `s` on another
      process `d` would close a cycle of SENDING processes if and only if the walk meets `s`. */
  lemma LockedIffCycle(i: Ipc, s: Pid, d: Pid, addr: nat)
    requires GraphInv(i) && s < |i.procs| && d < |i.procs| && s != d && !Sending(i, s)
    ensures WouldLock(i, s, d) <==> !Acyclic(SendLater(i, s, d, addr))
  {
    var j := SendLater(i, s, d, addr);
    if WouldLock(i, s, d) {
      var n: nat :| n > 0 && Leads(i, d, s, n);
      LeadsSurvives(i, j, s, d, d, n);
      assert IsPid(j, s) && Leads(j, s, s, n + 1);
    } else {
      EndsWithNewSender(i, j, s, d);
      EndsMeansAcyclic(j);
    }
  }

  /** The walk tests SENDING before it compares, so a send to oneself is not caught: it blocks on
      its own queue, a cycle of one. */
  lemma SendToSelfNotCaught(i: Ipc, s: Pid, addr: nat)
    requires GraphInv(i) && s < |i.procs| && Runnable(i, s)
    ensures !WouldLock(i, s, s) && !WaitsFor(i, s, s)
    ensures !Acyclic(SendLater(i, s, s, addr))
  {
    var j := SendLater(i, s, s, addr);
    assert IsPid(j, s);
    assert Leads(j, j.procs[s].sendto, s, 0);
    assert Leads(j, s, s, 1);
  }

  lemma GraphSendLater(i: Ipc, s: Pid, d: Pid, addr: nat)
    requires GraphInv(i) && s < |i.procs| && d < |i.procs| && s != d
    requires !Sending(i, s) && !i.procs[s].rts.receiving
    requires !WouldLock(i, s, d) && !WaitsFor(i, d, s)
    ensures GraphInv(SendLater(i, s, d, addr))
  {
    var j := SendLater(i, s, d, addr);
    EndsWithNewSender(i, j, s, d);
    assert IsPid(i, s) && IsPid(i, d) && s !in i.callers[d];
    forall e, x | IsPid(j, e) && IsPid(j, x)
      ensures x in j.callers[e] <==> Sending(j, x) && j.procs[x].sendto == e
    {
      assert IsPid(i, e) && IsPid(i, x);
      assert s !in i.callers[e];
    }
    forall e | IsPid(j, e)
      ensures NoDup(j.callers[e])
    {
      assert IsPid(i, e);
    }
    forall x | IsPid(j, x) && Sending(j, x) && j.procs[x].rts.receiving
      ensures j.procs[x].getfrom == Nr(j.procs[x].sendto)
    {
      assert IsPid(i, x);
    }
    forall x | IsPid(j, x) && Sending(j, x)
      ensures !WaitsFor(j, j.procs[x].sendto, x)
    {
      if x != s {
        assert Sending(i, x) && !WaitsFor(i, i.procs[x].sendto, x);
      }
    }
  }

  // A sender served.

  lemma {:induction false} StopsSooner(i: Ipc, j: Ipc, s: Pid, p: Pid, n: nat) returns (m: nat)
    requires WfIpc(i) && WfIpc(j) && |i.procs| == |j.procs| && p < |i.procs| && s < |i.procs|
    requires !j.procs[s].rts.sending
    requires forall x :: IsPid(i, x) && x != s ==>
             j.procs[x].rts.sending == i.procs[x].rts.sending &&
             j.procs[x].sendto == i.procs[x].sendto
    requires Stops(i, p, n)
    ensures Stops(j, p, m)
    decreases n
  {
    assert IsPid(i, p);
    if n == 0 || p == s {
      m := 0;
    } else {
      m := StopsSooner(i, j, s, i.procs[p].sendto, n - 1);
      m := m + 1;
    }
  }

  lemma EndsWithoutSender(i: Ipc, j: Ipc, s: Pid)
    requires WfIpc(i) && WfIpc(j) && |i.procs| == |j.procs| && s < |i.procs|
    requires !j.procs[s].rts.sending
    requires forall x :: IsPid(i, x) && x != s ==>
             j.procs[x].rts.sending == i.procs[x].rts.sending &&
             j.procs[x].sendto == i.procs[x].sendto
    requires WalksEnd(i)
    ensures WalksEnd(j)
  {
    forall p | IsPid(j, p)
      ensures WalkEnds(j, p)
    {
      assert IsPid(i, p) && WalkEnds(i, p);
      var n: nat :| Stops(i, p, n);
      var m := StopsSooner(i, j, s, p, n);
    }
  }

  lemma RemoveAt(q: seq<Pid>, k: nat, x: Pid)
    requires k < |q| && NoDup(q)
    ensures NoDup(q[..k] + q[k + 1..])
    ensures x in q[..k] + q[k + 1..] <==> x in q && x != q[k]
  {
    var r := q[..k] + q[k + 1..];
    if x in q && x != q[k] {
      var j :| 0 <= j < |q| && q[j] == x;
      assert r[if j < k then j else j - 1] == x;
    }
  }

  /** The queues after a message was taken. */
  lemma QueuesTakeQueued(i: Ipc, r: Pid, k: nat, addr: nat)
    requires WfIpc(i) && QueuesExact(i) && r < |i.procs| && k < |i.callers[r]|
    ensures QueuesExact(TakeQueued(i, r, k, addr))
    ensures Sending(i, i.callers[r][k]) && i.procs[i.callers[r][k]].sendto == r
  {
    var j := TakeQueued(i, r, k, addr);
    var s := i.callers[r][k];
    assert IsPid(i, r) && IsPid(i, s) && s in i.callers[r];
    forall d, x | IsPid(j, d) && IsPid(j, x)
      ensures x in j.callers[d] <==> Sending(j, x) && j.procs[x].sendto == d
    {
      assert IsPid(i, d) && IsPid(i, x);
      if d == r {
        RemoveAt(i.callers[r], k, x);
      }
    }
    forall d | IsPid(j, d)
      ensures NoDup(j.callers[d])
    {
      assert IsPid(i, d);
      if d == r {
        RemoveAt(i.callers[r], k, s);
      }
    }
  }

  lemma GraphTakeQueued(i: Ipc, r: Pid, k: nat, addr: nat)
    requires GraphInv(i) && r < |i.procs| && !Sending(i, r) && k < |i.callers[r]|
    ensures GraphInv(TakeQueued(i, r, k, addr))
  {
    hide QueuesExact;
    var j := TakeQueued(i, r, k, addr);
    var s := i.callers[r][k];
    QueuesTakeQueued(i, r, k, addr);
    EndsWithoutSender(i, j, s);
    assert forall x :: IsPid(j, x) ==> IsPid(i, x);
    assert ReplyExpected(j);
    forall x | IsPid(j, x) && Sending(j, x)
      ensures !WaitsFor(j, j.procs[x].sendto, x)
    {
      assert Sending(i, x) && !WaitsFor(i, i.procs[x].sendto, x);
    }
  }

  // A new receiver.

  /** No process in `q` is one that a receive from `src` accepts. */
  predicate NoneFrom(q: seq<Pid>, src: Endpoint) {
    forall k :: 0 <= k < |q| ==> src != Any && src != Nr(q[k])
  }

  lemma GraphReceiveLater(i: Ipc, r: Pid, src: Endpoint, addr: nat)
    requires GraphInv(i) && r < |i.procs|
    requires if Sending(i, r) then src == Nr(i.procs[r].sendto)
             else NoneFrom(i.callers[r], src)
    ensures GraphInv(ReceiveLater(i, r, src, addr))
  {
    var j := ReceiveLater(i, r, src, addr);
    EndsSame(i, j);
    assert forall x :: IsPid(j, x) ==> IsPid(i, x);
    assert QueuesExact(j);
    assert ReplyExpected(j);
    forall x | IsPid(j, x) && Sending(j, x)
      ensures !WaitsFor(j, j.procs[x].sendto, x)
    {
      var d := i.procs[x].sendto;
      assert Sending(i, x) && !WaitsFor(i, d, x);
      if d == r && !Sending(i, r) {
        assert IsPid(i, r) && x in i.callers[r];
      }
    }
  }

  // A process gone.

  lemma {:induction false} WithoutExact(q: seq<Pid>, p: Pid, x: Pid)
    requires NoDup(q)
    ensures NoDup(Without(q, p))
    ensures x in Without(q, p) <==> x in q && x != p
  {
    if q != [] && q[0] != p {
      WithoutExact(q[1..], p, x);
      WithoutExact(q[1..], p, q[0]);
      assert q[0] !in q[1..];
      var r := Without(q[1..], p);
      assert Without(q, p) == [q[0]] + r;
      forall j, k | 0 <= j < k < |r| + 1
        ensures ([q[0]] + r)[j] != ([q[0]] + r)[k]
      {
        assert r[k - 1] in r;
      }
      assert x in q <==> x == q[0] || x in q[1..];
    } else if q != [] {
      assert x in q <==> x == q[0] || x in q[1..];
      assert q[0] !in q[1..];
    }
  }

  lemma GraphClear(i: Ipc, p: Pid)
    requires GraphInv(i) && p < |i.procs|
    ensures GraphInv(Clear(i, p))
  {
    var j := Clear(i, p);
    EndsWithoutSender(i, j, p);
    forall d, x | IsPid(j, d) && IsPid(j, x)
      ensures x in j.callers[d] <==> Sending(j, x) && j.procs[x].sendto == d
    {
      assert IsPid(i, d) && IsPid(i, x);
      WithoutExact(i.callers[d], p, x);
    }
    forall d | IsPid(j, d)
      ensures NoDup(j.callers[d])
    {
      assert IsPid(i, d);
      WithoutExact(i.callers[d], p, p);
    }
    assert forall x :: IsPid(j, x) ==> IsPid(i, x);
    assert ReplyExpected(j);
    forall x | IsPid(j, x) && Sending(j, x)
      ensures !WaitsFor(j, j.procs[x].sendto, x)
    {
      assert Sending(i, x) && !WaitsFor(i, i.procs[x].sendto, x);
    }
  }

  lemma {:induction false} WithoutAt(q: seq<Pid>, k: nat)
    requires k < |q| && forall j :: 0 <= j < k ==> q[j] != q[k]
    ensures Without(q, q[k]) == q[..k] + q[k + 1..]
  {
    if k == 0 {
      assert q[..0] + q[1..] == q[1..];
    } else {
      WithoutAt(q[1..], k - 1);
      assert q[1..][..k - 1] + q[1..][k..] == q[1..k] + q[k + 1..];
      assert [q[0]] + (q[1..k] + q[k + 1..]) == q[..k] + q[k + 1..];
    }
  }
}
