/** Every step of the kernel keeps the invariant, and what that means for whole runs. */
module KernelRuns {
  import opened Options
  import opened KernelState
  import opened KernelGraph
  import opened KernelNotices
  import opened KernelHistory
  import opened KernelReady
  import opened KernelSteps
  import opened KernelInvariant

  // System calls.

  lemma SetBusyKeeps(st: State, c: Pid, busy: bool)
    requires Inv(st) && c < |st.ipc.procs| && Runnable(st.ipc, c)
    requires !busy ==> Exclusive(st.ipc, c)
    ensures Inv(st.(ipc := SetBusy(st.ipc, c, busy)))
  {
    hide QueuesExact, WalksEnd, ReplyExpected, NoneMissed, Config, ArgsPending, SpareBitsClear, IdleMapsClear,
      Conserved, InOrder, NotifiesKept, ReadyExact, NextIsTop, Ranked, CallInv;
    IpcSetBusy(st.ipc, c, busy);
    CallSetBusy(st.ipc, c, busy);
    RqSame(st.ipc, SetBusy(st.ipc, c, busy), st.rq);
  }

  /** SYSTEM never blocks sending, so a receive from it finds nothing on the queue. */
  lemma SystemNotQueued(i: Ipc, c: Pid)
    requires GraphInv(i) && !Sending(i, SYSTEM) && c < |i.procs|
    ensures FirstFrom(i.callers[c], Nr(SYSTEM)) == |i.callers[c]|
  {
    assert IsPid(i, c) && IsPid(i, SYSTEM);
    assert SYSTEM !in i.callers[c];
  }

  /** The receiving half of a SENDREC to a kernel task: the caller blocks until it is answered. */
  lemma ReceiveMidKeeps(st: State, c: Pid, d: Pid, addr: nat)
    requires MidCall(st, c) && c < |st.ipc.procs| && d < |st.ipc.procs| && c != IDLE
    requires st.ipc.privs[st.ipc.procs[c].priv].busy
    requires if Sending(st.ipc, c) then st.ipc.procs[c].sendto == d && st.ipc.procs[c].messbuf == addr else d == SYSTEM
    requires Serving(st.ipc.log) == Some((c, true)) ==> d == SYSTEM && !Sending(st.ipc, c)
    ensures Inv(MiniReceive(st, c, Nr(d), addr, false).0)
  {
    hide QueuesExact, WalksEnd, ReplyExpected, NoneMissed, Config, ArgsPending, SpareBitsClear, IdleMapsClear,
      Conserved, InOrder, NotifiesKept, ReadyExact, NextIsTop, Ranked;
    var i := st.ipc;
    SystemNotQueued(i, c);
    IpcReceiveLater(i, c, Nr(d), addr);
    CallReceiveMid(i, c, d, addr);
    RqBlock(st, ReceiveLater(i, c, Nr(d), addr), c);
  }

  lemma ServingAfterSend(i: Ipc, s: Pid, d: Pid, addr: nat, waits: bool)
    requires WfIpc(i) && s < |i.procs| && d < |i.procs| && s != SYSTEM
    ensures Serving(SendNow(i, s, d, addr, waits).log) == if d == SYSTEM then Some((s, waits)) else Serving(i.log)
    ensures Serving(SendLater(i, s, d, addr).log) == Serving(i.log)
  {
    var m := Letter(i, s, addr);
    var e1, e2 := Accepted(s, d, m), Delivered(s, d, m, waits);
    assert SendNow(i, s, d, addr, waits).log == (i.log + [e1]) + [e2];
    AppendServing(i.log, e1);
    AppendServing(i.log + [e1], e2);
  }

  /** A request that is delivered at once. */
  lemma SendrecNow(st: State, c: Pid, d: Pid, addr: nat, nb: bool)
    requires Inv(st) && c < |st.ipc.procs| && d < |st.ipc.procs| && c != d && c != IDLE && c != SYSTEM
    requires Runnable(st.ipc, c) && st.ipc.privs[st.ipc.procs[c].priv].busy && WaitsFor(st.ipc, d, c)
    ensures Inv(MiniReceive(Wake(st, SendNow(st.ipc, c, d, addr, !nb), d), c, Nr(d), addr, nb).0)
  {
    hide QueuesExact, WalksEnd, ReplyExpected, NoneMissed, Config, ArgsPending, SpareBitsClear, IdleMapsClear,
      Conserved, InOrder, NotifiesKept, ReadyExact, NextIsTop, Ranked;
    var o := Wake(st, SendNow(st.ipc, c, d, addr, !nb), d);
    SendNowKeeps(st, c, d, addr, !nb);
    if d != SYSTEM {
      ReceiveKeeps(o, c, Nr(d), addr, nb);
    } else if !nb {
      ReceiveMidKeeps(o, c, d, addr);
    } else {
      ServingAfterSend(st.ipc, c, d, addr, !nb);
      SystemNotQueued(o.ipc, c);
      CallNotWaiting(o.ipc, c);
    }
  }

  lemma CallNotWaiting(i: Ipc, c: Pid)
    requires WfIpc(i) && CallInv(i, c) && c < |i.procs| && !Sending(i, c)
    requires Serving(i.log) == Some((c, false))
    ensures CallInv(i, -1)
  {
  }

  /** A request that has to wait for its destination. */
  lemma SendrecLater(st: State, c: Pid, d: Pid, addr: nat)
    requires Inv(st) && c < |st.ipc.procs| && d < |st.ipc.procs| && c != d && c != IDLE && c != SYSTEM
    requires Runnable(st.ipc, c) && st.ipc.privs[st.ipc.procs[c].priv].busy
    requires !WouldLock(st.ipc, c, d) && !WaitsFor(st.ipc, d, c)
    ensures Inv(MiniReceive(Block(st, c).(ipc := SendLater(st.ipc, c, d, addr)), c, Nr(d), addr, false).0)
  {
    hide QueuesExact, WalksEnd, ReplyExpected, NoneMissed, Config, ArgsPending, SpareBitsClear, IdleMapsClear,
      Conserved, InOrder, NotifiesKept, ReadyExact, NextIsTop, Ranked;
    var o := Block(st, c).(ipc := SendLater(st.ipc, c, d, addr));
    SendLaterKeeps(st, c, d, addr);
    if IsKernel(d) {
      ServingAfterSend(st.ipc, c, d, addr, true);
      ReceiveMidKeeps(o, c, d, addr);
    } else {
      ReceiveKeeps(o, c, Nr(d), addr, false);
    }
  }

  /** What mini_receive relies on when SENDREC falls through to it. */
  lemma SendrecHalfway(st: State, c: Pid, d: Pid, addr: nat, nb: bool)
    requires Inv(st) && c < |st.ipc.procs| && d < |st.ipc.procs| && c != d && Runnable(st.ipc, c)
    ensures var o := MiniSend(st, c, d, addr, nb);
            o.1 == OK && !Sending(o.0.ipc, c) ==>
              QueuesExact(o.0.ipc) && ReadyExact(o.0.ipc, o.0.rq, -1)
  {
    hide QueuesExact, WalksEnd, ReplyExpected, NoneMissed, Config, ArgsPending, SpareBitsClear, IdleMapsClear,
      Conserved, InOrder, NotifiesKept, ReadyExact, NextIsTop, Ranked, CallInv;
    if !WouldLock(st.ipc, c, d) && WaitsFor(st.ipc, d, c) {
      SendNowKeeps(st, c, d, addr, !nb);
    }
  }

  lemma SendRecKeeps(st: State, c: Pid, d: Pid, addr: nat, nb: bool)
    requires Inv(st) && c < |st.ipc.procs| && d < |st.ipc.procs| && c != d && c != IDLE && c != SYSTEM
    requires Runnable(st.ipc, c)
    ensures Inv(SendRec(st, c, d, addr, nb).0)
  {
    hide QueuesExact, WalksEnd, ReplyExpected, NoneMissed, Config, ArgsPending, SpareBitsClear, IdleMapsClear,
      Conserved, InOrder, NotifiesKept, ReadyExact, NextIsTop, Ranked, CallInv, MiniReceive;
    var st1 := st.(ipc := SetBusy(st.ipc, c, true));
    SetBusyKeeps(st, c, true);
    if WouldLock(st1.ipc, c, d) {
    } else if WaitsFor(st1.ipc, d, c) {
      SendrecNow(st1, c, d, addr, nb);
    } else if !nb {
      SendrecLater(st1, c, d, addr);
    }
  }

  lemma SysCallKeeps(st: State, f: Function, ep: Endpoint, addr: nat, nb: bool, pointerOk: bool)
    requires Inv(st) && Enabled(st, Call(f, ep, addr, nb, pointerOk))
    ensures Inv(SysCall(st, f, ep, addr, nb, pointerOk).0)
  {
    hide QueuesExact, WalksEnd, ReplyExpected, NoneMissed, ArgsPending, SpareBitsClear, IdleMapsClear, Conserved,
      InOrder, NotifiesKept, ReadyExact, NextIsTop, Ranked, CallInv, SendRec, MiniSend, MiniReceive, MiniNotify;
    var c := st.current;
    assert IsPid(st.ipc, c);
    if CheckCall(st, f, ep, pointerOk) == OK {
      match f
      case SEND =>
        MiniSendKeeps(st, c, ep.pid, addr, nb);
      case SENDREC =>
        SendRecKeeps(st, c, ep.pid, addr, nb);
      case RECEIVE =>
        SetBusyKeeps(st, c, false);
        ReceiveKeeps(st.(ipc := SetBusy(st.ipc, c, false)), c, ep, addr, nb);
      case NOTIFY =>
        NoticeInvWeaker(st.ipc, st.ipc.procs[ep.pid].priv, c);
        MiniNotifyKeeps(st, c, ep.pid);
      case ECHO =>
        StoreKeeps(st, c, addr, Letter(st.ipc, c, addr));
    }
  }

  lemma StoreKeeps(st: State, p: Pid, addr: nat, m: Message)
    requires Inv(st) && p < |st.ipc.procs| && Unsent(Store(st.ipc, p, addr, m), p) == Unsent(st.ipc, p)
    ensures Inv(st.(ipc := Store(st.ipc, p, addr, m)))
  {
    hide QueuesExact, WalksEnd, ReplyExpected, NoneMissed, Config, ArgsPending, SpareBitsClear, IdleMapsClear,
      Conserved, InOrder, NotifiesKept, ReadyExact, NextIsTop, Ranked, CallInv;
    IpcStore(st.ipc, p, addr, m);
    CallSame(st.ipc, Store(st.ipc, p, addr, m));
    RqSame(st.ipc, Store(st.ipc, p, addr, m), st.rq);
  }

  /** Writing to memory keeps the invariant if and only if it does not change the message that a
      blocked sender is to hand over. */
  lemma WriteKeepsIff(st: State, p: Pid, addr: nat, m: Message)
    requires Inv(st) && p < |st.ipc.procs|
    ensures Inv(st.(ipc := Store(st.ipc, p, addr, m))) <==>
            (Sending(st.ipc, p) && addr == st.ipc.procs[p].messbuf ==> m.(source := Nr(p)) == Letter(st.ipc, p, addr))
  {
    hide QueuesExact, WalksEnd, ReplyExpected, NoneMissed, Config, ArgsPending, SpareBitsClear, IdleMapsClear, InOrder,
      NotifiesKept, ReadyExact, NextIsTop, Ranked, CallInv;
    var i, j := st.ipc, Store(st.ipc, p, addr, m);
    assert IsPid(i, p) && IsPid(j, p);
    if Unsent(j, p) == Unsent(i, p) {
      StoreKeeps(st, p, addr, m);
    } else if Inv(st.(ipc := j)) {
      SameRest(TakenFrom(i.log, p), Unsent(i, p), Unsent(j, p));
    }
  }

  lemma SameRest<A>(a: seq<A>, b: seq<A>, c: seq<A>)
    ensures a + b == a + c ==> b == c
  {
    assert (a + b)[|a|..] == b && (a + c)[|a|..] == c;
  }

  // Signals, interrupts and replies.

  lemma ReplyKeeps(st: State, d: Pid, addr: nat)
    requires Inv(st) && d < |st.ipc.procs| && d != SYSTEM && Runnable(st.ipc, SYSTEM)
    ensures Inv(MiniSend(st, SYSTEM, d, addr, true).0)
  {
    hide QueuesExact, WalksEnd, ReplyExpected, NoneMissed, Config, ArgsPending, SpareBitsClear, IdleMapsClear,
      Conserved, InOrder, NotifiesKept, ReadyExact, NextIsTop, Ranked, CallInv;
    if !WouldLock(st.ipc, SYSTEM, d) && WaitsFor(st.ipc, d, SYSTEM) {
      SendNowKeeps(st, SYSTEM, d, addr, false);
    }
  }

  lemma NotifyKeeps(st: State, src: Pid, d: Pid)
    requires Inv(st) && src < |st.ipc.procs| && d < |st.ipc.procs|
    ensures Inv(MiniNotify(st, src, d))
  {
    hide QueuesExact, WalksEnd, ReplyExpected, NoneMissed, Config, ArgsPending, SpareBitsClear, IdleMapsClear,
      Conserved, InOrder, NotifiesKept, ReadyExact, NextIsTop, Ranked, CallInv;
    NoticeInvWeaker(st.ipc, st.ipc.procs[d].priv, src);
    MiniNotifyKeeps(st, src, d);
  }

  lemma InterruptKeeps(st: State, p: Pid, bit: nat)
    requires Inv(st) && p < |st.ipc.procs|
    ensures Inv(Interrupt(st, p, bit))
  {
    hide QueuesExact, WalksEnd, ReplyExpected, NoneMissed, Config, ArgsPending, SpareBitsClear, IdleMapsClear,
      Conserved, InOrder, NotifiesKept, ReadyExact, NextIsTop, Ranked, CallInv;
    var v := st.ipc.procs[p].priv;
    var j := SetInts(st.ipc, v, st.ipc.privs[v].ints + {bit});
    IpcQuiet(st.ipc, j);
    NoticesSetInts(st.ipc, v, st.ipc.privs[v].ints + {bit});
    CallSame(st.ipc, j);
    RqSame(st.ipc, j, st.rq);
    MiniNotifyKeeps(st.(ipc := j), HARDWARE, p);
  }

  lemma SendSigKeeps(st: State, p: Pid, sig: nat)
    requires Inv(st) && p < |st.ipc.procs|
    ensures Inv(SendSig(st, p, sig))
  {
    hide QueuesExact, WalksEnd, ReplyExpected, NoneMissed, Config, ArgsPending, SpareBitsClear, IdleMapsClear,
      Conserved, InOrder, NotifiesKept, ReadyExact, NextIsTop, Ranked, CallInv;
    var v := st.ipc.procs[p].priv;
    var j := SetSigs(st.ipc, v, st.ipc.privs[v].sigs + {sig});
    IpcQuiet(st.ipc, j);
    NoticesSetSigs(st.ipc, v, st.ipc.privs[v].sigs + {sig});
    CallSame(st.ipc, j);
    RqSame(st.ipc, j, st.rq);
    MiniNotifyKeeps(st.(ipc := j), SYSTEM, p);
  }

  lemma FlagsKeep(st: State, p: Pid, rts: Rts, sigs: set<nat>)
    requires Inv(st) && p < |st.ipc.procs|
    requires rts.sending == st.ipc.procs[p].rts.sending && rts.receiving == st.ipc.procs[p].rts.receiving
    requires rts.signaled ==> rts.sigPending
    requires sigs != {} ==> rts.signaled || rts.slotFree
    ensures var j := SetFlags(st.ipc, p, rts, sigs); IpcInv(j) && CallInv(j, -1) && SignalsBlock(j)
  {
    hide QueuesExact, WalksEnd, ReplyExpected, NoneMissed, Config, ArgsPending, SpareBitsClear, IdleMapsClear,
      Conserved, InOrder, NotifiesKept, ReadyExact, NextIsTop, Ranked, CallInv;
    IpcSetFlags(st.ipc, p, rts, sigs);
    CallSame(st.ipc, SetFlags(st.ipc, p, rts, sigs));
  }

  /** The process is stopped by its first pending signal. */
  lemma CauseBlockKeeps(st: State, p: Pid, sig: nat)
    requires Inv(st) && NR_TASKS <= p < |st.ipc.procs|
    ensures var rp := st.ipc.procs[p];
            var j := SetFlags(st.ipc, p, rp.rts.(signaled := true, sigPending := true), rp.sigs + {sig});
            Inv(Block(st, p).(ipc := j))
  {
    hide QueuesExact, WalksEnd, ReplyExpected, NoneMissed, Config, ArgsPending, SpareBitsClear, IdleMapsClear,
      Conserved, InOrder, NotifiesKept, ReadyExact, NextIsTop, Ranked, CallInv;
    var rp := st.ipc.procs[p];
    assert IsPid(st.ipc, p);
    var rts := rp.rts.(signaled := true, sigPending := true);
    FlagsKeep(st, p, rts, rp.sigs + {sig});
    RqBlock(st, SetFlags(st.ipc, p, rts, rp.sigs + {sig}), p);
  }

  /** Process `d` was told about signal `sig`, or SYSTEM's notification to it is pending. */
  ghost predicate Told(i: Ipc, d: Pid, sig: nat)
    requires WfIpc(i) && d < |i.procs|
  {
    var v := i.procs[d].priv;
    || (sig in i.privs[v].sigs && Bit(i, v, i.procs[SYSTEM].priv))
    || (i.log != [] && IsNotice(i.log[|i.log| - 1], d, sig))
  }

  predicate IsNotice(e: Event, d: Pid, sig: nat) {
    e.Noticed? && e.from == Nr(SYSTEM) && e.dst == d && e.m.body.Notification? && sig in e.m.body.arg
  }

  lemma SendSigTells(st: State, d: Pid, sig: nat)
    requires Wf(st) && d < |st.ipc.procs|
    ensures Told(SendSig(st, d, sig).ipc, d, sig)
    ensures |SendSig(st, d, sig).ipc.procs| == |st.ipc.procs|
    ensures forall x :: IsPid(st.ipc, x) ==>
              var r, r' := st.ipc.procs[x].rts, SendSig(st, d, sig).ipc.procs[x].rts;
              r' == r || r' == r.(receiving := false)
    ensures forall x :: IsPid(st.ipc, x) ==> SendSig(st, d, sig).ipc.procs[x].sigs == st.ipc.procs[x].sigs
  {
    hide WfRq, Enqueue;
  }

  lemma CauseSigTells(st: State, p: Pid, sig: nat)
    requires Wf(st) && SignalsBlock(st.ipc) && p < |st.ipc.procs|
    ensures |CauseSig(st, p, sig).ipc.procs| == |st.ipc.procs|
    ensures var rp := CauseSig(st, p, sig).ipc.procs[p];
            && sig in rp.sigs && !rp.rts.Zero()
            && (!st.ipc.procs[p].rts.slotFree ==> rp.rts.signaled && rp.rts.sigPending)
    ensures sig !in st.ipc.procs[p].sigs && !st.ipc.procs[p].rts.signaled ==>
              Told(CauseSig(st, p, sig).ipc, PM, SIGKSIG)
  {
    hide SendSig, Told, Dequeue, WfRq;
    var rp := st.ipc.procs[p];
    assert IsPid(st.ipc, p);
    if sig !in rp.sigs && !rp.rts.signaled {
      var j := SetFlags(st.ipc, p, rp.rts.(signaled := true, sigPending := true), rp.sigs + {sig});
      SendSigTells(Block(st, p).(ipc := j), PM, SIGKSIG);
      assert IsPid(j, p);
    }
  }

  lemma CauseSigInv(st: State, p: Pid, sig: nat)
    requires Inv(st) && NR_TASKS <= p < |st.ipc.procs|
    ensures Inv(CauseSig(st, p, sig))
  {
    hide QueuesExact, WalksEnd, ReplyExpected, NoneMissed, Config, ArgsPending, SpareBitsClear, IdleMapsClear,
      Conserved, InOrder, NotifiesKept, ReadyExact, NextIsTop, Ranked, CallInv, SendSig, Dequeue;
    var rp := st.ipc.procs[p];
    assert IsPid(st.ipc, p);
    if sig in rp.sigs {
    } else if rp.rts.signaled {
      FlagsKeep(st, p, rp.rts, rp.sigs + {sig});
      RqSame(st.ipc, SetFlags(st.ipc, p, rp.rts, rp.sigs + {sig}), st.rq);
    } else {
      var j := SetFlags(st.ipc, p, rp.rts.(signaled := true, sigPending := true), rp.sigs + {sig});
      CauseBlockKeeps(st, p, sig);
      SendSigKeeps(Block(st, p).(ipc := j), PM, SIGKSIG);
    }
  }

  /** After a signal the process cannot run, the signal is in its set, and if it had none before,
      PM was told or is going to be. */
  lemma CauseSigKeeps(st: State, p: Pid, sig: nat)
    requires Inv(st) && NR_TASKS <= p < |st.ipc.procs|
    ensures Inv(CauseSig(st, p, sig)) && |CauseSig(st, p, sig).ipc.procs| == |st.ipc.procs|
    ensures var rp := CauseSig(st, p, sig).ipc.procs[p];
            && sig in rp.sigs && !rp.rts.Zero()
            && (!st.ipc.procs[p].rts.slotFree ==> rp.rts.signaled && rp.rts.sigPending)
    ensures sig !in st.ipc.procs[p].sigs && !st.ipc.procs[p].rts.signaled ==>
              Told(CauseSig(st, p, sig).ipc, PM, SIGKSIG)
  {
    hide CauseSig, IpcInv, CallInv, RqInv, SignalsBlock, Told;
    CauseSigTells(st, p, sig);
    CauseSigInv(st, p, sig);
  }

  lemma GetKsigKeeps(st: State)
    requires Inv(st)
    ensures Inv(GetKsig(st))
  {
    hide QueuesExact, WalksEnd, ReplyExpected, NoneMissed, Config, ArgsPending, SpareBitsClear, IdleMapsClear,
      Conserved, InOrder, NotifiesKept, ReadyExact, NextIsTop, Ranked, CallInv;
    var p := FirstSignaled(st.ipc, NR_TASKS);
    if p < |st.ipc.procs| {
      var rts := st.ipc.procs[p].rts.(signaled := false);
      assert IsPid(st.ipc, p) && rts.sigPending;
      FlagsKeep(st, p, rts, {});
      RqSame(st.ipc, SetFlags(st.ipc, p, rts, {}), st.rq);
    }
  }

  /** PM has dealt with the signals of a process: it goes on only if no other came meanwhile. */
  lemma EndKsigKeeps(st: State, p: Pid)
    requires Inv(st) && p < |st.ipc.procs|
    ensures Inv(EndKsig(st, p).0) && |EndKsig(st, p).0.ipc.procs| == |st.ipc.procs|
    ensures EndKsig(st, p).1 == if st.ipc.procs[p].rts.sigPending then OK else EINVAL
    ensures !Runnable(st.ipc, p) && Runnable(EndKsig(st, p).0.ipc, p) ==>
              st.ipc.procs[p].rts.sigPending && !st.ipc.procs[p].rts.signaled && st.ipc.procs[p].sigs == {}
  {
    hide QueuesExact, WalksEnd, ReplyExpected, NoneMissed, Config, ArgsPending, SpareBitsClear, IdleMapsClear,
      Conserved, InOrder, NotifiesKept, ReadyExact, NextIsTop, Ranked, CallInv;
    var rp := st.ipc.procs[p];
    assert IsPid(st.ipc, p);
    if rp.rts.sigPending && !rp.rts.signaled {
      var rts := rp.rts.(sigPending := false);
      FlagsKeep(st, p, rts, rp.sigs);
      RqWake(st, SetFlags(st.ipc, p, rts, rp.sigs), p);
    }
  }

  lemma StopKeeps(st: State, p: Pid)
    requires Inv(st) && NR_TASKS <= p < |st.ipc.procs|
    ensures Inv(Stop(st, p))
  {
    hide QueuesExact, WalksEnd, ReplyExpected, NoneMissed, Config, ArgsPending, SpareBitsClear, IdleMapsClear,
      Conserved, InOrder, NotifiesKept, ReadyExact, NextIsTop, Ranked, CallInv;
    var rp := st.ipc.procs[p];
    var rts := rp.rts.(stopped := true);
    assert IsPid(st.ipc, p);
    FlagsKeep(st, p, rts, rp.sigs);
    RqBlock(st, SetFlags(st.ipc, p, rts, rp.sigs), p);
  }

  lemma ResumeKeeps(st: State, p: Pid)
    requires Inv(st) && p < |st.ipc.procs| && !Runnable(st.ipc, p)
    ensures Inv(Resume(st, p))
  {
    hide QueuesExact, WalksEnd, ReplyExpected, NoneMissed, Config, ArgsPending, SpareBitsClear, IdleMapsClear,
      Conserved, InOrder, NotifiesKept, ReadyExact, NextIsTop, Ranked, CallInv;
    var rp := st.ipc.procs[p];
    var rts := rp.rts.(stopped := false);
    assert IsPid(st.ipc, p);
    FlagsKeep(st, p, rts, rp.sigs);
    RqWake(st, SetFlags(st.ipc, p, rts, rp.sigs), p);
  }

  lemma ExitKeeps(st: State, p: Pid)
    requires Inv(st) && NR_TASKS <= p < |st.ipc.procs|
    ensures Inv(Exit(st, p))
  {
    hide QueuesExact, WalksEnd, ReplyExpected, NoneMissed, Config, ArgsPending, SpareBitsClear, IdleMapsClear,
      Conserved, InOrder, NotifiesKept, ReadyExact, NextIsTop, Ranked, CallInv;
    IpcClear(st.ipc, p);
    CallClear(st.ipc, p);
    RqBlock(st, Clear(st.ipc, p), p);
  }

  // Scheduling steps.

  /** Putting a process that is on no queue, but has no flags, on the queue of its priority. */
  lemma RqEnqueue(i: Ipc, r: Rq, p: Pid)
    requires WfIpc(i) && WfRq(r, |i.procs|) && p < |i.procs| && Runnable(i, p) && Runnable(i, IDLE)
    requires ReadyExact(i, r, p) && Ranked(r)
    ensures RqInv(i, Enqueue(i, r, p))
  {
    ReadyEnqueue(i, r, p);
    RankedEnqueue(i, r, p);
  }

  lemma ReadyOtherSlice(i: Ipc, r: Rq, p: Pid, s: Slice)
    requires WfIpc(i) && WfRq(r, |i.procs|) && p < |i.procs|
    requires 0 <= s.priority < NR_SCHED_QUEUES && 0 <= s.maxPriority < NR_SCHED_QUEUES
    requires ReadyExact(i, r, p) || (ReadyExact(i, r, -1) && s.priority == r.slices[p].priority)
    ensures ReadyExact(i, r, p) ==> ReadyExact(i, r.(slices := r.slices[p := s]), p)
    ensures ReadyExact(i, r, -1) && s.priority == r.slices[p].priority ==> ReadyExact(i,
            r.(slices := r.slices[p := s]), -1)
  {
  }

  lemma NiceKeeps(st: State, p: Pid, q: nat)
    requires Inv(st) && NR_TASKS <= p < |st.ipc.procs| && q <= MIN_USER_Q
    ensures Inv(Nice(st, p, q))
  {
    hide IpcInv, CallInv, ReadyExact;
    var i := st.ipc;
    var r1 := Dequeue(i, st.rq, st.current, p);
    var s := r1.slices[p].(maxPriority := q, priority := q);
    var r2 := r1.(slices := r1.slices[p := s]);
    assert IsPid(i, p);
    ReadyDequeue(i, st.rq, st.current, p);
    NextDequeue(i, st.rq, st.current, p);
    ReadyOtherSlice(i, r1, p, s);
    if Runnable(i, p) {
      RqEnqueue(i, r2, p);
    } else {
      ReadyBlocked(i, r2, p);
    }
  }

  lemma ChargeKeeps(i: Ipc, r: Rq, p: Pid, ticks: nat)
    requires WfIpc(i) && WfRq(r, |i.procs|) && p < |i.procs| && RqInv(i, r)
    ensures RqInv(i, Charge(r, p, ticks))
  {
    hide ReadyExact;
    ReadyOtherSlice(i, r, p, Charge(r, p, ticks).slices[p]);
  }

  lemma ChargeAllKeeps(i: Ipc, r: Rq, current: Pid, ticks: nat)
    requires WfIpc(i) && WfRq(r, |i.procs|) && current < |i.procs| && RqInv(i, r)
    ensures RqInv(i, ChargeAll(i, r, current, ticks))
  {
    hide RqInv;
    ChargeKeeps(i, r, current, ticks);
    ChargeKeeps(i, r, r.bill, ticks);
    ChargeKeeps(i, Charge(r, current, ticks), r.bill, ticks);
  }

  lemma TickKeeps(st: State, ticks: nat)
    requires Inv(st)
    ensures Inv(ClockTick(st, ticks))
  {
    hide IpcInv, CallInv, RqInv, ChargeAll, MiniNotify;
    var st1 := st.(rq := ChargeAll(st.ipc, st.rq, st.current, ticks), realtime := st.realtime + ticks);
    ChargeAllKeeps(st.ipc, st.rq, st.current, ticks);
    NotifyKeeps(st1.(ticked := st.current), HARDWARE, CLOCK);
  }

  lemma ClockWorkKeeps(st: State)
    requires Inv(st)
    requires Spent(st) ==> Runnable(st.ipc, st.ticked)
    ensures Inv(DoClocktick(st))
  {
    hide IpcInv, CallInv, ReadyExact, NextIsTop;
    if Spent(st) {
      ReadyDequeue(st.ipc, st.rq, st.current, st.ticked);
      RqEnqueue(st.ipc, Dequeue(st.ipc, st.rq, st.current, st.ticked), st.ticked);
    }
  }
}
