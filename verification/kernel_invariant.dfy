/** The whole invariant of the kernel, and that every kernel entry keeps it. */
module KernelInvariant {
  import opened Options
  import opened KernelState
  import opened KernelGraph
  import opened KernelNotices
  import opened KernelHistory
  import opened KernelReady
  import opened KernelSteps

  ghost predicate HistoryInv(i: Ipc)
    requires WfIpc(i)
  {
    Conserved(i) && InOrder(i) && NotifiesKept(i)
  }

  /** Everything about message passing except what is special to kernel calls. */
  ghost predicate IpcInv(i: Ipc) {
    GraphInv(i) && NoticeInv(i, -1, 0) && HistoryInv(i)
  }

  ghost predicate RqInv(i: Ipc, r: Rq)
    requires WfIpc(i) && WfRq(r, |i.procs|)
  {
    Runnable(i, IDLE) && ReadyExact(i, r, -1) && NextIsTop(r) && Ranked(r)
  }

  /** A process with an unseen signal also has SIG_PENDING, which keeps it blocked when PM has seen
      the signal; and a live process with signals to be seen has SIGNALED. */
  ghost predicate SignalsBlock(i: Ipc) {
    forall p :: IsPid(i, p) ==>
      && (i.procs[p].rts.signaled ==> i.procs[p].rts.sigPending)
      && (i.procs[p].sigs != {} ==> i.procs[p].rts.signaled || i.procs[p].rts.slotFree)
  }

  /** `but` is the process in the middle of a SENDREC to a kernel task, or -1. */
  ghost predicate MidCall(st: State, but: int) {
    Wf(st) && IpcInv(st.ipc) && CallInv(st.ipc, but) && SignalsBlock(st.ipc) && RqInv(st.ipc, st.rq)
  }

  ghost predicate Inv(st: State) {
    MidCall(st, -1)
  }

  lemma NotQueued(i: Ipc, s: Pid)
    requires GraphInv(i) && s < |i.procs| && !Sending(i, s)
    ensures forall x :: IsPid(i, x) ==> s !in i.callers[x]
  {
    assert IsPid(i, s);
  }

  // Message passing.

  lemma IpcSendNow(i: Ipc, s: Pid, d: Pid, addr: nat, waits: bool)
    requires IpcInv(i) && s < |i.procs| && d < |i.procs|
    requires !Sending(i, s) && WaitsFor(i, d, s)
    ensures IpcInv(SendNow(i, s, d, addr, waits))
  {
    hide QueuesExact, WalksEnd, ReplyExpected, NoneMissed, Config, ArgsPending, SpareBitsClear, IdleMapsClear,
      Conserved, InOrder, NotifiesKept;
    var j := SendNow(i, s, d, addr, waits);
    GraphFewerWaits(i, j);
    NoticesSendNow(i, s, d, addr, waits);
    ConservedSendNow(i, s, d, addr, waits);
    NotQueued(i, s);
    InOrderSendNow(i, s, d, addr, waits);
    KeptSameBits(i, j);
  }

  lemma IpcSendLater(i: Ipc, s: Pid, d: Pid, addr: nat)
    requires IpcInv(i) && s < |i.procs| && d < |i.procs| && s != d
    requires !Sending(i, s) && !i.procs[s].rts.receiving
    requires !WouldLock(i, s, d) && !WaitsFor(i, d, s)
    ensures IpcInv(SendLater(i, s, d, addr))
  {
    hide QueuesExact, WalksEnd, ReplyExpected, NoneMissed, Config, ArgsPending, SpareBitsClear, IdleMapsClear,
      Conserved, InOrder, NotifiesKept;
    GraphSendLater(i, s, d, addr);
    NoticesSendLater(i, s, d, addr);
    ConservedSendLater(i, s, d, addr);
    NotQueued(i, s);
    InOrderSendLater(i, s, d, addr);
    KeptSameBits(i, SendLater(i, s, d, addr));
  }

  lemma IpcTakeQueued(i: Ipc, r: Pid, k: nat, addr: nat)
    requires IpcInv(i) && r < |i.procs| && !Sending(i, r) && k < |i.callers[r]|
    ensures IpcInv(TakeQueued(i, r, k, addr))
    ensures Sending(i, i.callers[r][k]) && i.procs[i.callers[r][k]].sendto == r
  {
    hide WalksEnd, NoneMissed, Config, ArgsPending, SpareBitsClear, IdleMapsClear, Conserved, InOrder, NotifiesKept;
    var s := i.callers[r][k];
    assert IsPid(i, r) && IsPid(i, s) && s in i.callers[r];
    GraphTakeQueued(i, r, k, addr);
    NoticesTakeQueued(i, r, k, addr);
    ConservedTakeQueued(i, r, k, addr);
    InOrderTakeQueued(i, r, k, addr);
    KeptSameBits(i, TakeQueued(i, r, k, addr));
  }

  lemma IpcReceiveLater(i: Ipc, r: Pid, src: Endpoint, addr: nat)
    requires IpcInv(i) && r < |i.procs|
    requires if Sending(i, r) then src == Nr(i.procs[r].sendto) && addr == i.procs[r].messbuf
             else NoneFrom(i.callers[r], src)
    requires Sending(i, r) || i.privs[i.procs[r].priv].busy ||
             FindNotify(i, i.procs[r].priv, src, 0) == MapBits(|i.privs|)
    ensures IpcInv(ReceiveLater(i, r, src, addr))
  {
    hide QueuesExact, WalksEnd, ReplyExpected, NoneMissed, Config, ArgsPending, SpareBitsClear, IdleMapsClear,
      Conserved, InOrder, NotifiesKept;
    var j := ReceiveLater(i, r, src, addr);
    GraphReceiveLater(i, r, src, addr);
    NoticesReceiveLater(i, r, src, addr);
    assert j.log == i.log + [];
    assert forall s :: IsPid(i, s) ==> Unsent(j, s) == Unsent(i, s);
    ConservedQuiet(i, j, []);
    InOrderQuiet(i, j, []);
    KeptSameBits(i, j);
  }

  lemma IpcClear(i: Ipc, p: Pid)
    requires IpcInv(i) && p < |i.procs|
    ensures IpcInv(Clear(i, p))
  {
    hide QueuesExact, WalksEnd, ReplyExpected, NoneMissed, Config, ArgsPending, SpareBitsClear, IdleMapsClear,
      Conserved, InOrder, NotifiesKept;
    GraphClear(i, p);
    NoticesClear(i, p);
    ConservedClear(i, p);
    InOrderClear(i, p);
    KeptSameBits(i, Clear(i, p));
  }

  lemma IpcTakeNotice(i: Ipc, r: Pid, id: nat, addr: nat, now: int)
    requires IpcInv(i) && r < |i.procs| && id < |i.privs| && !Sending(i, r)
    ensures IpcInv(TakeNotice(i, r, id, addr, now))
  {
    hide QueuesExact, WalksEnd, ReplyExpected, NoneMissed, Config, ArgsPending, SpareBitsClear, IdleMapsClear,
      Conserved, InOrder, NotifiesKept;
    var j := TakeNotice(i, r, id, addr, now);
    GraphFewerWaits(i, j);
    NoticesTake(i, r, id, addr, now);
    ConservedQuiet(i, j, j.log[|i.log|..]);
    InOrderQuiet(i, j, j.log[|i.log|..]);
    KeptTakeNotice(i, r, id, addr, now);
  }

  lemma IpcNoticeNow(i: Ipc, src: Pid, d: Pid, now: int)
    requires GraphInv(i) && HistoryInv(i) && src < |i.procs| && d < |i.procs|
    requires NoticeInv(i, i.procs[d].priv, src)
    requires !Sending(i, d)
    ensures IpcInv(NoticeNow(i, src, d, now))
  {
    hide QueuesExact, WalksEnd, ReplyExpected, NoneMissed, Config, ArgsPending, SpareBitsClear, IdleMapsClear,
      Conserved, InOrder, NotifiesKept;
    var j := NoticeNow(i, src, d, now);
    GraphFewerWaits(i, j);
    NoticesNow(i, src, d, now);
    ConservedQuiet(i, j, j.log[|i.log|..]);
    InOrderQuiet(i, j, j.log[|i.log|..]);
    KeptNoticeNow(i, src, d, now);
  }

  lemma IpcNoticeLater(i: Ipc, src: Pid, d: Pid)
    requires GraphInv(i) && HistoryInv(i) && src < |i.procs| && d < |i.procs|
    requires NoticeInv(i, i.procs[d].priv, src)
    requires !WaitsFor(i, d, src) || i.privs[i.procs[d].priv].busy
    ensures IpcInv(NoticeLater(i, src, d))
  {
    hide QueuesExact, WalksEnd, ReplyExpected, NoneMissed, Config, ArgsPending, SpareBitsClear, IdleMapsClear,
      Conserved, InOrder, NotifiesKept;
    var j := NoticeLater(i, src, d);
    GraphFewerWaits(i, j);
    NoticesLater(i, src, d);
    ConservedQuiet(i, j, j.log[|i.log|..]);
    InOrderQuiet(i, j, j.log[|i.log|..]);
    KeptNoticeLater(i, src, d);
  }

  /** Steps that leave the history and everything it depends on alone. */
  lemma IpcQuiet(i: Ipc, j: Ipc)
    requires GraphInv(i) && HistoryInv(i) && WfIpc(j) && NoNewWaits(i, j) && SameOwners(i, j) && j.log == i.log
    requires forall v :: 0 <= v < |i.privs| ==> j.privs[v].pending == i.privs[v].pending
    requires forall s :: IsPid(i, s) ==> Unsent(j, s) == Unsent(i, s)
    ensures GraphInv(j) && HistoryInv(j)
  {
    hide QueuesExact, WalksEnd, ReplyExpected, NoneMissed, Conserved, InOrder, NotifiesKept;
    GraphFewerWaits(i, j);
    assert j.log == i.log + [];
    ConservedQuiet(i, j, []);
    InOrderQuiet(i, j, []);
    KeptSameBits(i, j);
  }

  lemma IpcSetBusy(i: Ipc, p: Pid, busy: bool)
    requires IpcInv(i) && p < |i.procs| && Runnable(i, p)
    ensures IpcInv(SetBusy(i, p, busy))
  {
    hide QueuesExact, WalksEnd, ReplyExpected, NoneMissed, Config, ArgsPending, SpareBitsClear, IdleMapsClear,
      Conserved, InOrder, NotifiesKept;
    IpcQuiet(i, SetBusy(i, p, busy));
    NoticesSetBusy(i, p, busy);
  }

  lemma IpcStore(i: Ipc, p: Pid, addr: nat, m: Message)
    requires IpcInv(i) && p < |i.procs| && Unsent(Store(i, p, addr, m), p) == Unsent(i, p)
    ensures IpcInv(Store(i, p, addr, m))
  {
    hide QueuesExact, WalksEnd, ReplyExpected, NoneMissed, Config, ArgsPending, SpareBitsClear, IdleMapsClear,
      Conserved, InOrder, NotifiesKept;
    IpcQuiet(i, Store(i, p, addr, m));
    NoticesStore(i, p, addr, m);
  }

  lemma IpcSetFlags(i: Ipc, p: Pid, rts: Rts, sigs: set<nat>)
    requires IpcInv(i) && p < |i.procs|
    requires rts.sending == i.procs[p].rts.sending && rts.receiving == i.procs[p].rts.receiving
    ensures IpcInv(SetFlags(i, p, rts, sigs))
  {
    hide QueuesExact, WalksEnd, ReplyExpected, NoneMissed, Config, ArgsPending, SpareBitsClear, IdleMapsClear,
      Conserved, InOrder, NotifiesKept;
    IpcQuiet(i, SetFlags(i, p, rts, sigs));
    NoticesSetFlags(i, p, rts, sigs);
  }

  // Kernel calls.

  lemma CallSendNow(i: Ipc, s: Pid, d: Pid, addr: nat, waits: bool)
    requires WfIpc(i) && CallInv(i, -1) && s < |i.procs| && d < |i.procs| && s != d
    requires !Sending(i, s) && WaitsFor(i, d, s)
    ensures CallInv(SendNow(i, s, d, addr, waits), if d == SYSTEM then s else -1)
  {
    var m := Letter(i, s, addr);
    var e1, e2 := Accepted(s, d, m), Delivered(s, d, m, waits);
    assert SendNow(i, s, d, addr, waits).log == (i.log + [e1]) + [e2];
    AppendServing(i.log, e1);
    AppendServing(i.log + [e1], e2);
  }

  lemma CallSendLater(i: Ipc, s: Pid, d: Pid, addr: nat)
    requires WfIpc(i) && CallInv(i, -1) && s < |i.procs| && d < |i.procs| && s != SYSTEM
    requires !Sending(i, s) && !i.procs[s].rts.receiving
    ensures CallInv(SendLater(i, s, d, addr), if IsKernel(d) then s else -1)
  {
    AppendServing(i.log, Accepted(s, d, Letter(i, s, addr)));
  }

  lemma CallTakeQueued(i: Ipc, r: Pid, k: nat, addr: nat)
    requires GraphInv(i) && CallInv(i, -1) && r < |i.procs| && k < |i.callers[r]| && !Sending(i, r)
    requires Sending(i, i.callers[r][k]) && i.procs[i.callers[r][k]].sendto == r
    ensures CallInv(TakeQueued(i, r, k, addr), -1)
  {
    var s := i.callers[r][k];
    assert IsPid(i, s);
    AppendServing(i.log, Delivered(s, r, Letter(i, s, i.procs[s].messbuf), true));
  }

  /** The receiving half of a SENDREC to the kernel task `d` leaves the caller waiting for it. */
  lemma CallReceiveMid(i: Ipc, r: Pid, d: Pid, addr: nat)
    requires WfIpc(i) && CallInv(i, r) && r < |i.procs| && d < |i.procs|
    requires i.privs[i.procs[r].priv].busy
    requires Sending(i, r) ==> i.procs[r].sendto == d
    requires Serving(i.log) == Some((r, true)) ==> d == SYSTEM && !Sending(i, r)
    ensures CallInv(ReceiveLater(i, r, Nr(d), addr), -1)
  {
  }

  lemma CallReceiveLater(i: Ipc, r: Pid, src: Endpoint, addr: nat)
    requires WfIpc(i) && CallInv(i, -1) && r < |i.procs|
    requires !i.procs[r].rts.receiving
    requires Sending(i, r) ==> !IsKernel(i.procs[r].sendto)
    ensures CallInv(ReceiveLater(i, r, src, addr), -1)
  {
  }

  /** Nobody else's SENDREC_BUSY is cleared by a receive: only a process with privileges of its
      own may trap to receive. */
  lemma CallSetBusy(i: Ipc, c: Pid, busy: bool)
    requires WfIpc(i) && CallInv(i, -1) && c < |i.procs| && Runnable(i, c)
    requires !busy ==> Exclusive(i, c)
    ensures CallInv(SetBusy(i, c, busy), -1)
  {
    var j := SetBusy(i, c, busy);
    forall x | IsPid(i, x) && x != c && i.privs[i.procs[x].priv].busy
      ensures j.privs[j.procs[x].priv].busy
    {
    }
  }

  /** `j` differs from `i` in nothing that a kernel call relies on. */
  lemma CallSame(i: Ipc, j: Ipc)
    requires WfIpc(i) && WfIpc(j) && |i.procs| == |j.procs| && CallInv(i, -1)
    requires Serving(j.log) == Serving(i.log)
    requires forall x :: IsPid(i, x) ==>
               && j.procs[x].rts.sending == i.procs[x].rts.sending && j.procs[x].sendto == i.procs[x].sendto
               && (InSendrec(i, x) && i.procs[x].rts.sending ==> InSendrec(j, x))
               && (AwaitsReply(i, x) ==> AwaitsReply(j, x))
    ensures CallInv(j, -1)
  {
    assert IsPid(i, SYSTEM);
    assert forall x :: IsPid(j, x) ==> IsPid(i, x);
  }

  lemma CallNoticeNow(i: Ipc, src: Pid, d: Pid, now: int)
    requires WfIpc(i) && CallInv(i, -1) && src < |i.procs| && d < |i.procs|
    requires !Sending(i, d) && !i.privs[i.procs[d].priv].busy
    ensures CallInv(NoticeNow(i, src, d, now), -1)
  {
    var j := NoticeNow(i, src, d, now);
    var e1, e2 := Notified(src, d), Noticed(Nr(src), d, BuildMess(Nr(src), i.privs[i.procs[d].priv], now));
    assert j.log == (i.log + [e1]) + [e2];
    AppendServing(i.log, e1);
    AppendServing(i.log + [e1], e2);
    CallSame(i, j);
  }

  lemma CallNoticeLater(i: Ipc, src: Pid, d: Pid)
    requires WfIpc(i) && CallInv(i, -1) && src < |i.procs| && d < |i.procs|
    ensures CallInv(NoticeLater(i, src, d), -1)
  {
    AppendServing(i.log, Notified(src, d));
    CallSame(i, NoticeLater(i, src, d));
  }

  lemma CallTakeNotice(i: Ipc, r: Pid, id: nat, addr: nat, now: int)
    requires WfIpc(i) && CallInv(i, -1) && r < |i.procs| && id < |i.privs|
    ensures CallInv(TakeNotice(i, r, id, addr, now), -1)
  {
    var j := TakeNotice(i, r, id, addr, now);
    AppendServing(i.log, j.log[|i.log|]);
    CallSame(i, j);
  }

  lemma CallClear(i: Ipc, p: Pid)
    requires WfIpc(i) && CallInv(i, -1) && p < |i.procs| && p != SYSTEM
    ensures CallInv(Clear(i, p), -1)
  {
    var j := Clear(i, p);
    var e := Dropped(p, i.procs[p].sendto, Letter(i, p, i.procs[p].messbuf));
    assert j.log == (i.log + [e]) + [Exited(p)] || j.log == i.log + [Exited(p)];
    AppendServing(i.log, e);
    AppendServing(i.log + [e], Exited(p));
    AppendServing(i.log, Exited(p));
  }

  // Scheduling.

  lemma RqSame(i: Ipc, j: Ipc, r: Rq)
    requires WfIpc(i) && WfIpc(j) && |i.procs| == |j.procs| && WfRq(r, |i.procs|) && RqInv(i, r)
    requires forall x :: IsPid(i, x) ==> (Runnable(j, x) <==> Runnable(i, x))
    ensures RqInv(j, r)
  {
    hide ReadyExact, NextIsTop, Ranked;
    assert IsPid(i, IDLE);
    ReadyOtherIpc(i, j, r, -1);
  }

  /** `p` had flags; the others' flags are unchanged. */
  lemma RqWake(st: State, j: Ipc, p: Pid)
    requires Wf(st) && WfIpc(j) && |st.ipc.procs| == |j.procs| && RqInv(st.ipc, st.rq)
    requires p < |j.procs| && !Runnable(st.ipc, p)
    requires forall x :: IsPid(st.ipc, x) && x != p ==> (Runnable(j, x) <==> Runnable(st.ipc, x))
    ensures RqInv(j, Wake(st, j, p).rq)
  {
    hide ReadyExact, NextIsTop, Ranked;
    assert IsPid(st.ipc, IDLE) && IsPid(st.ipc, p);
    ReadyBlocked(st.ipc, st.rq, p);
    ReadyOtherIpc(st.ipc, j, st.rq, p);
    if Runnable(j, p) {
      ReadyEnqueue(j, st.rq, p);
      RankedEnqueue(j, st.rq, p);
    } else {
      ReadyBlocked(j, st.rq, p);
    }
  }

  /** `p` has flags now; the others' flags are unchanged. */
  lemma RqBlock(st: State, j: Ipc, p: Pid)
    requires Wf(st) && WfIpc(j) && |st.ipc.procs| == |j.procs| && RqInv(st.ipc, st.rq)
    requires p < |j.procs| && p != IDLE && !Runnable(j, p)
    requires forall x :: IsPid(st.ipc, x) && x != p ==> (Runnable(j, x) <==> Runnable(st.ipc, x))
    ensures RqInv(j, Block(st, p).rq)
  {
    hide ReadyExact, NextIsTop;
    assert IsPid(st.ipc, IDLE) && IsPid(j, p);
    if Runnable(st.ipc, p) {
      ReadyDequeue(st.ipc, st.rq, st.current, p);
      NextDequeue(st.ipc, st.rq, st.current, p);
    } else {
      ReadyBlocked(st.ipc, st.rq, p);
    }
    ReadyOtherIpc(st.ipc, j, Block(st, p).rq, p);
    ReadyBlocked(j, Block(st, p).rq, p);
  }

  // Kernel entries.

  lemma SendNowKeeps(st: State, s: Pid, d: Pid, addr: nat, waits: bool)
    requires Inv(st) && s < |st.ipc.procs| && d < |st.ipc.procs| && s != d
    requires !Sending(st.ipc, s) && WaitsFor(st.ipc, d, s)
    ensures MidCall(Wake(st, SendNow(st.ipc, s, d, addr, waits), d), if d == SYSTEM then s else -1)
  {
    hide QueuesExact, WalksEnd, ReplyExpected, NoneMissed, Config, ArgsPending, SpareBitsClear, IdleMapsClear,
      Conserved, InOrder, NotifiesKept, ReadyExact, NextIsTop, Ranked, CallInv;
    IpcSendNow(st.ipc, s, d, addr, waits);
    CallSendNow(st.ipc, s, d, addr, waits);
    RqWake(st, SendNow(st.ipc, s, d, addr, waits), d);
  }

  lemma SendLaterKeeps(st: State, s: Pid, d: Pid, addr: nat)
    requires Inv(st) && s < |st.ipc.procs| && d < |st.ipc.procs| && s != d
    requires Runnable(st.ipc, s) && s != IDLE && s != SYSTEM
    requires !WouldLock(st.ipc, s, d) && !WaitsFor(st.ipc, d, s)
    ensures MidCall(Block(st, s).(ipc := SendLater(st.ipc, s, d, addr)), if IsKernel(d) then s else -1)
  {
    hide QueuesExact, WalksEnd, ReplyExpected, NoneMissed, Config, ArgsPending, SpareBitsClear, IdleMapsClear,
      Conserved, InOrder, NotifiesKept, ReadyExact, NextIsTop, Ranked, CallInv;
    IpcSendLater(st.ipc, s, d, addr);
    CallSendLater(st.ipc, s, d, addr);
    RqBlock(st, SendLater(st.ipc, s, d, addr), s);
  }

  lemma TakeQueuedKeeps(st: State, r: Pid, k: nat, addr: nat)
    requires Inv(st) && r < |st.ipc.procs| && !Sending(st.ipc, r) && k < |st.ipc.callers[r]|
    ensures Inv(Wake(st, TakeQueued(st.ipc, r, k, addr), st.ipc.callers[r][k]))
  {
    hide QueuesExact, WalksEnd, ReplyExpected, NoneMissed, Config, ArgsPending, SpareBitsClear, IdleMapsClear,
      Conserved, InOrder, NotifiesKept, ReadyExact, NextIsTop, Ranked, CallInv;
    IpcTakeQueued(st.ipc, r, k, addr);
    CallTakeQueued(st.ipc, r, k, addr);
    RqWake(st, TakeQueued(st.ipc, r, k, addr), st.ipc.callers[r][k]);
  }

  lemma TakeNoticeKeeps(st: State, r: Pid, id: nat, addr: nat)
    requires Inv(st) && r < |st.ipc.procs| && id < |st.ipc.privs| && !Sending(st.ipc, r)
    ensures Inv(st.(ipc := TakeNotice(st.ipc, r, id, addr, st.realtime)))
  {
    hide QueuesExact, WalksEnd, ReplyExpected, NoneMissed, Config, ArgsPending, SpareBitsClear, IdleMapsClear,
      Conserved, InOrder, NotifiesKept, ReadyExact, NextIsTop, Ranked, CallInv;
    IpcTakeNotice(st.ipc, r, id, addr, st.realtime);
    CallTakeNotice(st.ipc, r, id, addr, st.realtime);
    RqSame(st.ipc, TakeNotice(st.ipc, r, id, addr, st.realtime), st.rq);
  }

  lemma ReceiveLaterKeeps(st: State, r: Pid, src: Endpoint, addr: nat)
    requires Inv(st) && r < |st.ipc.procs| && r != IDLE && !st.ipc.procs[r].rts.receiving
    requires if Sending(st.ipc, r)
             then src == Nr(st.ipc.procs[r].sendto) && addr == st.ipc.procs[r].messbuf &&
               !IsKernel(st.ipc.procs[r].sendto)
             else NoneFrom(st.ipc.callers[r], src)
    requires Sending(st.ipc, r) || st.ipc.privs[st.ipc.procs[r].priv].busy ||
             FindNotify(st.ipc, st.ipc.procs[r].priv, src, 0) == MapBits(|st.ipc.privs|)
    ensures Inv(Block(st, r).(ipc := ReceiveLater(st.ipc, r, src, addr)))
  {
    hide QueuesExact, WalksEnd, ReplyExpected, NoneMissed, Config, ArgsPending, SpareBitsClear, IdleMapsClear,
      Conserved, InOrder, NotifiesKept, ReadyExact, NextIsTop, Ranked, CallInv;
    IpcReceiveLater(st.ipc, r, src, addr);
    CallReceiveLater(st.ipc, r, src, addr);
    RqBlock(st, ReceiveLater(st.ipc, r, src, addr), r);
  }

  lemma MiniSendKeeps(st: State, s: Pid, d: Pid, addr: nat, nb: bool)
    requires Inv(st) && s < |st.ipc.procs| && d < |st.ipc.procs| && s != d
    requires Runnable(st.ipc, s) && s != IDLE && (s == SYSTEM ==> nb)
    ensures MidCall(MiniSend(st, s, d, addr, nb).0, if IsKernel(d) then s else -1)
  {
    hide QueuesExact, WalksEnd, ReplyExpected, NoneMissed, Config, ArgsPending, SpareBitsClear, IdleMapsClear,
      Conserved, InOrder, NotifiesKept, ReadyExact, NextIsTop, Ranked;
    if WouldLock(st.ipc, s, d) {
      CallInvWeaker(st.ipc, s);
    } else if WaitsFor(st.ipc, d, s) {
      SendNowKeeps(st, s, d, addr, !nb);
      var o := Wake(st, SendNow(st.ipc, s, d, addr, !nb), d);
      if d != SYSTEM {
        CallInvWeaker(o.ipc, s);
      }
    } else if !nb {
      SendLaterKeeps(st, s, d, addr);
    } else {
      CallInvWeaker(st.ipc, s);
    }
  }

  lemma CallInvWeaker(i: Ipc, but: int)
    requires WfIpc(i) && CallInv(i, -1)
    ensures CallInv(i, but)
  {
  }

  lemma MiniNotifyKeeps(st: State, src: Pid, d: Pid)
    requires Wf(st) && src < |st.ipc.procs| && d < |st.ipc.procs|
    requires GraphInv(st.ipc) && HistoryInv(st.ipc) && NoticeInv(st.ipc, st.ipc.procs[d].priv, src)
    requires CallInv(st.ipc, -1) && SignalsBlock(st.ipc) && RqInv(st.ipc, st.rq)
    ensures Inv(MiniNotify(st, src, d))
  {
    hide QueuesExact, WalksEnd, ReplyExpected, NoneMissed, Config, ArgsPending, SpareBitsClear, IdleMapsClear,
      Conserved, InOrder, NotifiesKept, ReadyExact, NextIsTop, Ranked, CallInv;
    var i := st.ipc;
    if WaitsFor(i, d, src) && !i.privs[i.procs[d].priv].busy {
      IpcNoticeNow(i, src, d, st.realtime);
      CallNoticeNow(i, src, d, st.realtime);
      RqWake(st, NoticeNow(i, src, d, st.realtime), d);
    } else {
      IpcNoticeLater(i, src, d);
      CallNoticeLater(i, src, d);
      RqSame(i, NoticeLater(i, src, d), st.rq);
    }
  }

  lemma NoticeInvWeaker(i: Ipc, but: int, src: Pid)
    requires NoticeInv(i, -1, 0)
    ensures NoticeInv(i, but, src)
  {
  }

  /** A plain receive by the running process. */
  lemma ReceiveKeeps(st: State, r: Pid, src: Endpoint, addr: nat, nb: bool)
    requires Inv(st) && r < |st.ipc.procs| && r != IDLE
    requires !st.ipc.procs[r].rts.receiving
    requires Sending(st.ipc, r) ==>
               !IsKernel(st.ipc.procs[r].sendto) && src == Nr(st.ipc.procs[r].sendto) && addr == st.ipc.procs[r].messbuf
    ensures Inv(MiniReceive(st, r, src, addr, nb).0)
  {
    hide QueuesExact, WalksEnd, ReplyExpected, NoneMissed, Config, ArgsPending, SpareBitsClear, IdleMapsClear,
      Conserved, InOrder, NotifiesKept, ReadyExact, NextIsTop, Ranked, CallInv;
    var v := st.ipc.procs[r].priv;
    var id := FindNotify(st.ipc, v, src, 0);
    var k := FirstFrom(st.ipc.callers[r], src);
    IdFits(st.ipc);
    if !Sending(st.ipc, r) && !st.ipc.privs[v].busy && id < |st.ipc.privs| {
      TakeNoticeKeeps(st, r, id, addr);
    } else if !Sending(st.ipc, r) && k < |st.ipc.callers[r]| {
      TakeQueuedKeeps(st, r, k, addr);
    } else if !nb {
      ReceiveLaterKeeps(st, r, src, addr);
    }
  }
}
