/** Which steps stop and start a process, for whom it waits on its queue, and who is billed. */
module KernelFlags {
  import opened Options
  import opened KernelState
  import opened KernelGraph
  import opened KernelReady
  import opened KernelSteps
  import opened KernelInvariant
  import opened KernelTheorems
  import opened KernelLaws

  // Flags and signals.

  /** Signal `s` is the first one that waits for `p`, which stops. */
  predicate Caught(st: State, s: Step, p: Pid)
    requires p < |st.ipc.procs|
  {
    s.Signal? && s.p == p && s.sig !in st.ipc.procs[p].sigs && !st.ipc.procs[p].rts.signaled
  }

  /** PM is given the signals of `p`, the first process that has any. */
  predicate Handed(st: State, s: Step, p: Pid)
    requires p < |st.ipc.procs|
  {
    && s.GetSignal? && NR_TASKS <= p && st.ipc.procs[p].rts.signaled
    && forall x :: NR_TASKS <= x < p ==> !st.ipc.procs[x].rts.signaled
  }

  /** Of the flags that have nothing to do with messages, each is set and cleared by just the steps
      that are to do so. */
  ghost predicate FlagsLaw(st: State, s: Step, p: Pid)
    requires Wf(st) && Enabled(st, s) && p < |st.ipc.procs|
  {
    && |Next(st, s).ipc.procs| == |st.ipc.procs|
    && var x, y := st.ipc.procs[p], Next(st, s).ipc.procs[p];
       if s == ProcessExit(p) then y.rts == SLOT_FREE && y.sigs == x.sigs
       else
         && y.rts.slotFree == x.rts.slotFree && y.rts.noMap == x.rts.noMap && y.rts.noPriv == x.rts.noPriv
         && (y.rts.stopped <==> (x.rts.stopped && s != TraceResume(p)) || s == TraceStop(p))
         && (y.rts.signaled <==> (x.rts.signaled && !Handed(st, s, p)) || Caught(st, s, p))
         && (y.rts.sigPending <==>
             (x.rts.sigPending && !(s == EndSignal(p) && !x.rts.signaled)) || Caught(st, s, p))
         && y.sigs == if s.Signal? && s.p == p then x.sigs + {s.sig} else if Handed(st, s, p) then {} else x.sigs
  }

  /** Only the flags for messages may differ. */
  ghost predicate SameFlags(i: Ipc, j: Ipc, p: Pid)
    requires p < |i.procs|
  {
    && |j.procs| == |i.procs|
    && var x, y := i.procs[p], j.procs[p];
       y.rts == x.rts.(sending := y.rts.sending, receiving := y.rts.receiving) && y.sigs == x.sigs
  }

  lemma FlagsSend(st: State, s: Pid, d: Pid, addr: nat, nb: bool, p: Pid)
    requires Wf(st) && s < |st.ipc.procs| && d < |st.ipc.procs| && p < |st.ipc.procs|
    ensures SameFlags(st.ipc, MiniSend(st, s, d, addr, nb).0.ipc, p)
  {
    hide WfRq, WfIpc, Wake, Block, WouldLock, Letter, SendNow, SendLater, SameFlags;
    FlagsSent(st.ipc, s, d, addr, !nb, p);
  }

  lemma FlagsSent(i: Ipc, s: Pid, d: Pid, addr: nat, waits: bool, p: Pid)
    requires WfIpc(i) && s < |i.procs| && d < |i.procs| && p < |i.procs|
    ensures SameFlags(i, SendNow(i, s, d, addr, waits), p) && SameFlags(i, SendLater(i, s, d, addr), p)
    ensures SameFlags(i, i, p)
  {
    hide WfIpc, Letter;
  }

  lemma FlagsTaken(i: Ipc, r: Pid, k: nat, addr: nat, p: Pid)
    requires WfIpc(i) && r < |i.procs| && k < |i.callers[r]| && p < |i.procs|
    ensures SameFlags(i, TakeQueued(i, r, k, addr), p)
  {
    hide Letter;
  }

  lemma FlagsNoticed(i: Ipc, r: Pid, id: nat, addr: nat, now: int, p: Pid)
    requires WfIpc(i) && r < |i.procs| && id < |i.privs| && p < |i.procs|
    ensures SameFlags(i, TakeNotice(i, r, id, addr, now), p)
  {
    hide BuildMess, ClearArg;
  }

  lemma FlagsReceive(st: State, r: Pid, src: Endpoint, addr: nat, nb: bool, p: Pid)
    requires Wf(st) && r < |st.ipc.procs| && p < |st.ipc.procs|
    ensures SameFlags(st.ipc, MiniReceive(st, r, src, addr, nb).0.ipc, p)
  {
    hide WfRq, Wake, Block, FindNotify, FirstFrom, TakeQueued, TakeNotice;
    var i, v := st.ipc, st.ipc.procs[r].priv;
    var id, k := FindNotify(i, v, src, 0), FirstFrom(i.callers[r], src);
    if id < |i.privs| {
      FlagsNoticed(i, r, id, addr, st.realtime, p);
    }
    if k < |i.callers[r]| {
      FlagsTaken(i, r, k, addr, p);
    }
  }

  lemma FlagsNotify(st: State, src: Pid, d: Pid, p: Pid)
    requires Wf(st) && src < |st.ipc.procs| && d < |st.ipc.procs| && p < |st.ipc.procs|
    ensures SameFlags(st.ipc, MiniNotify(st, src, d).ipc, p)
  {
    hide WfRq, Enqueue, Dequeue, BuildMess;
  }

  lemma FlagsCall(st: State, f: Function, ep: Endpoint, addr: nat, nb: bool, ok: bool, p: Pid)
    requires Wf(st) && Enabled(st, Call(f, ep, addr, nb, ok)) && p < |st.ipc.procs|
    ensures SameFlags(st.ipc, SysCall(st, f, ep, addr, nb, ok).0.ipc, p)
  {
    hide WfRq, CheckCall, MiniSend, MiniReceive, MiniNotify;
    var c := st.current;
    if CheckCall(st, f, ep, ok) == OK {
      match f
      case SEND => FlagsSend(st, c, ep.pid, addr, nb, p);
      case SENDREC =>
        var st1 := st.(ipc := SetBusy(st.ipc, c, true));
        FlagsSend(st1, c, ep.pid, addr, nb, p);
        FlagsReceive(MiniSend(st1, c, ep.pid, addr, nb).0, c, ep, addr, nb, p);
      case RECEIVE => FlagsReceive(st.(ipc := SetBusy(st.ipc, c, false)), c, ep, addr, nb, p);
      case NOTIFY => FlagsNotify(st, c, ep.pid, p);
      case ECHO =>
    }
  }

  lemma FlagsSignal(st: State, d: Pid, sig: nat, p: Pid)
    requires Wf(st) && d < |st.ipc.procs| && p < |st.ipc.procs|
    ensures SameFlags(st.ipc, SendSig(st, d, sig).ipc, p)
  {
    hide WfRq, MiniNotify;
    var v := st.ipc.procs[d].priv;
    FlagsNotify(st.(ipc := SetSigs(st.ipc, v, st.ipc.privs[v].sigs + {sig})), SYSTEM, d, p);
  }

  lemma FlagsInterrupt(st: State, d: Pid, bit: nat, p: Pid)
    requires Wf(st) && d < |st.ipc.procs| && p < |st.ipc.procs|
    ensures SameFlags(st.ipc, Interrupt(st, d, bit).ipc, p)
  {
    hide WfRq, MiniNotify;
    var v := st.ipc.procs[d].priv;
    FlagsNotify(st.(ipc := SetInts(st.ipc, v, st.ipc.privs[v].ints + {bit})), HARDWARE, d, p);
  }

  lemma FlagsTick(st: State, ticks: nat, p: Pid)
    requires Wf(st) && p < |st.ipc.procs|
    ensures SameFlags(st.ipc, ClockTick(st, ticks).ipc, p)
  {
    hide WfRq, MiniNotify, ChargeAll;
    var st1 := st.(rq := ChargeAll(st.ipc, st.rq, st.current, ticks), realtime := st.realtime + ticks);
    FlagsNotify(st1.(ticked := st.current), HARDWARE, CLOCK, p);
  }

  lemma FlagsCause(st: State, d: Pid, sig: nat, p: Pid)
    requires Wf(st) && Enabled(st, Signal(d, sig)) && p < |st.ipc.procs|
    ensures FlagsLaw(st, Signal(d, sig), p)
  {
    hide WfRq, WfIpc, SendSig, Dequeue;
    var rp := st.ipc.procs[d];
    var j := SetFlags(st.ipc, d, rp.rts.(signaled := true, sigPending := true), rp.sigs + {sig});
    FlagsSignal(Block(st, d).(ipc := j), PM, SIGKSIG, p);
  }

  lemma FlagsRest(st: State, s: Step, p: Pid)
    requires Wf(st) && Enabled(st, s) && p < |st.ipc.procs|
    requires s.EndSignal? || s.TraceStop? || s.TraceResume? || s.ProcessExit?
    ensures FlagsLaw(st, s, p)
  {
    hide WfRq, WfIpc, Wake, Block, Letter;
  }

  lemma FlagsHanded(st: State, p: Pid)
    requires Wf(st) && p < |st.ipc.procs|
    ensures FlagsLaw(st, GetSignal, p)
  {
    hide WfRq;
    var q := FirstSignaled(st.ipc, NR_TASKS);
  }

  lemma FlagsIdle(st: State, s: Step, p: Pid)
    requires Wf(st) && Enabled(st, s) && p < |st.ipc.procs|
    requires s.SetNice? || s.ClockWork? || s.SetTimeout? || s.Restart? || s.Write?
    ensures SameFlags(st.ipc, Next(st, s).ipc, p)
  {
    hide WfRq, WfIpc, Enqueue, Dequeue;
  }

  lemma FlagsSame(st: State, s: Step, p: Pid)
    requires Wf(st) && Enabled(st, s) && p < |st.ipc.procs| && SameFlags(st.ipc, Next(st, s).ipc, p)
    requires !(s.Signal? || s.GetSignal? || s.EndSignal? || s.TraceStop? || s.TraceResume? || s.ProcessExit?)
    ensures FlagsLaw(st, s, p)
  {
    hide Next, Enabled;
  }

  /** Every flag changes by the right steps. */
  lemma FlagsChange(st: State, s: Step, p: Pid)
    requires Wf(st) && Enabled(st, s) && p < |st.ipc.procs|
    ensures FlagsLaw(st, s, p)
  {
    hide WfRq, SysCall, MiniSend, MiniNotify, SendSig, CauseSig, Interrupt, ClockTick, Nice, DoClocktick, FlagsLaw,
      SameFlags;
    if s.Signal? {
      FlagsCause(st, s.p, s.sig, p);
    } else if s.GetSignal? {
      FlagsHanded(st, p);
    } else if s.EndSignal? || s.TraceStop? || s.TraceResume? || s.ProcessExit? {
      FlagsRest(st, s, p);
    } else {
      match s {
        case Call(f, ep, addr, nb, ok) => FlagsCall(st, f, ep, addr, nb, ok, p);
        case Reply(d, addr) => FlagsSend(st, SYSTEM, d, addr, true, p);
        case Irq(d, bit) => FlagsInterrupt(st, d, bit, p);
        case Alarm(d) => FlagsNotify(st, CLOCK, d, p);
        case SystemSignal(d, sig) => FlagsSignal(st, d, sig, p);
        case Tick(ticks) => FlagsTick(st, ticks, p);
        case _ => FlagsIdle(st, s, p);
      }
      FlagsSame(st, s, p);
    }
  }

  // The place on a queue.

  /** A process is announced at the front of its queue if it has credit left, and with a new quantum
      at the back if not; the others stay in their order. */
  lemma PlaceOf(i: Ipc, r: Rq, p: Pid)
    requires WfIpc(i) && WfRq(r, |i.procs|) && p < |i.procs|
    ensures var e := Enqueue(i, r, p);
            var q := e.slices[p].priority;
            && |e.slices| == |r.slices| && 0 <= q < NR_SCHED_QUEUES
            && (r.slices[p].ticksLeft > 0 ==> e.slices == r.slices && e.ready == r.ready[q := [p] + r.ready[q]])
            && (r.slices[p].ticksLeft <= 0 ==>
                  e.slices[p].ticksLeft == r.slices[p].quantum && e.ready == r.ready[q := r.ready[q] + [p]])
  {
    hide WfIpc, PickProc;
  }

  /** A driver that waits for anybody and is interrupted is told of the interrupt at once, can run,
      and with credit left is the first to do so at its priority. */
  lemma InterruptWakes(st: State, p: Pid, bit: nat)
    requires Wf(st) && p < |st.ipc.procs|
    requires st.ipc.procs[p].rts == SLOT_FREE.(slotFree := false, receiving := true) && st.ipc.procs[p].getfrom == Any
    requires !st.ipc.privs[st.ipc.procs[p].priv].busy && st.rq.slices[p].ticksLeft > 0
    ensures var st' := Next(st, Irq(p, bit));
            var q := st.rq.slices[p].priority;
            && |st'.ipc.procs| == |st.ipc.procs| && Runnable(st'.ipc, p)
            && st'.rq.slices == st.rq.slices && st'.rq.ready == st.rq.ready[q := [p] + st.rq.ready[q]]
            && var m := Fetch(st'.ipc, p, st.ipc.procs[p].messbuf);
               m == Message(Nr(HARDWARE), NOTIFY_MESSAGE + HARDWARE,
                            Notification(st.realtime, st.ipc.privs[st.ipc.procs[p].priv].ints + {bit}))
  {
    hide WfRq, Enqueue;
    var v := st.ipc.procs[p].priv;
    var j := SetInts(st.ipc, v, st.ipc.privs[v].ints + {bit});
    PlaceOf(NoticeNow(j, HARDWARE, p, st.realtime), st.rq, p);
  }

  // Billing.

  /** The process to bill is billable, and it is the next one to run if that is billable. */
  predicate Billing(i: Ipc, r: Rq)
    requires WfIpc(i) && WfRq(r, |i.procs|)
  {
    && i.privs[i.procs[r.bill].priv].billable
    && (i.privs[i.procs[r.next].priv].billable ==> r.bill == r.next)
  }

  lemma BillingPick(i: Ipc, r: Rq)
    requires WfIpc(i) && WfRq(r, |i.procs|) && Billing(i, r)
    ensures Billing(i, PickProc(i, r))
  {
  }

  lemma BillingSlices(i: Ipc, r: Rq, r': Rq)
    requires WfIpc(i) && WfRq(r, |i.procs|) && WfRq(r', |i.procs|) && Billing(i, r)
    requires r'.next == r.next && r'.bill == r.bill
    ensures Billing(i, r')
  {
  }

  lemma BillingEnqueue(i: Ipc, r: Rq, p: Pid)
    requires WfIpc(i) && WfRq(r, |i.procs|) && p < |i.procs| && Billing(i, r)
    ensures Billing(i, Enqueue(i, r, p))
  {
    hide WfIpc, PickProc, Billing;
    var r1 := Reschedule(r, p);
    var q := r1.slices[p].priority;
    var queue := if r.slices[p].ticksLeft > 0 then [p] + r1.ready[q] else r1.ready[q] + [p];
    var r2 := r1.(ready := r1.ready[q := queue]);
    BillingSlices(i, r, r2);
    BillingPick(i, r2);
  }

  lemma BillingDequeue(i: Ipc, r: Rq, current: Pid, p: Pid)
    requires WfIpc(i) && WfRq(r, |i.procs|) && p < |i.procs| && Billing(i, r)
    ensures Billing(i, Dequeue(i, r, current, p))
  {
    hide WfIpc, PickProc, Billing;
    var q := r.slices[p].priority;
    if p in r.ready[q] {
      var r1 := r.(ready := r.ready[q := Without(r.ready[q], p)]);
      assert forall k :: 0 <= k < |r1.ready[q]| ==> r1.ready[q][k] in r.ready[q];
      BillingSlices(i, r, r1);
      BillingPick(i, r1);
    }
  }

  /** Who may be billed is a matter of rights, which nobody changes. */
  lemma BillingSame(i: Ipc, j: Ipc, r: Rq)
    requires WfIpc(i) && WfIpc(j) && WfRq(r, |i.procs|) && Rights(j) == Rights(i) && Billing(i, r)
    ensures |j.procs| == |i.procs| && Billing(j, r)
  {
    hide Rights;
    RightsAt(i, j, r.bill);
    RightsAt(i, j, r.next);
  }

  lemma SameSizes(i: Ipc, j: Ipc)
    requires Rights(j) == Rights(i)
    ensures |j.procs| == |i.procs| && |j.privs| == |i.privs|
  {
    assert |Rights(j).0| == |j.procs| && |Rights(i).0| == |i.procs|;
    assert |Rights(j).1| == |j.privs| && |Rights(i).1| == |i.privs|;
  }

  ghost predicate Bills(st: State)
    requires Wf(st)
  {
    Billing(st.ipc, st.rq)
  }

  lemma BillsWake(st: State, i: Ipc, p: Pid)
    requires Wf(st) && WfIpc(i) && |i.procs| == |st.ipc.procs| && p < |i.procs|
    requires Bills(st) && Rights(i) == Rights(st.ipc)
    ensures Bills(Wake(st, i, p))
  {
    hide WfIpc, Billing, Rights, Enqueue;
    BillingSame(st.ipc, i, st.rq);
    BillingEnqueue(i, st.rq, p);
  }

  lemma BillsBlock(st: State, p: Pid)
    requires Wf(st) && p < |st.ipc.procs| && Bills(st)
    ensures Bills(Block(st, p))
  {
    hide WfIpc, Billing, Dequeue;
    BillingDequeue(st.ipc, st.rq, st.current, p);
  }

  /** Only what has to do with messages differs. */
  lemma BillsIpc(st: State, st': State)
    requires Wf(st) && Wf(st') && Bills(st) && st'.rq == st.rq && Rights(st'.ipc) == Rights(st.ipc)
    ensures Bills(st')
  {
    hide WfIpc, Billing, Rights;
    BillingSame(st.ipc, st'.ipc, st.rq);
  }

  lemma BillsSend(st: State, s: Pid, d: Pid, addr: nat, nb: bool)
    requires Wf(st) && s < |st.ipc.procs| && d < |st.ipc.procs| && Bills(st)
    ensures Bills(MiniSend(st, s, d, addr, nb).0)
  {
    hide WfIpc, Bills, Rights, Wake, Block, WouldLock, SendNow, SendLater;
    var st' := MiniSend(st, s, d, addr, nb).0;
    RightsSend(st, s, d, addr, nb);
    SameSizes(st.ipc, st'.ipc);
    BillsBlock(st, s);
    if WaitsFor(st.ipc, d, s) && !WouldLock(st.ipc, s, d) {
      BillsWake(st, st'.ipc, d);
    } else if !WouldLock(st.ipc, s, d) && !nb {
      BillsIpc(Block(st, s), st');
    }
  }

  lemma BillsReceive(st: State, r: Pid, src: Endpoint, addr: nat, nb: bool)
    requires Wf(st) && r < |st.ipc.procs| && Bills(st)
    ensures Bills(MiniReceive(st, r, src, addr, nb).0)
  {
    hide Bills, Rights, Wake, Block, FindNotify, FirstFrom, TakeNotice, ReceiveLater, Letter;
    var st' := MiniReceive(st, r, src, addr, nb).0;
    var i, v := st.ipc, st.ipc.procs[r].priv;
    var k := FirstFrom(i.callers[r], src);
    RightsReceive(st, r, src, addr, nb);
    BillsBlock(st, r);
    if k < |i.callers[r]| && st' == Wake(st, TakeQueued(i, r, k, addr), i.callers[r][k]) {
      BillsWake(st, TakeQueued(i, r, k, addr), i.callers[r][k]);
    } else if st'.rq == st.rq {
      BillsIpc(st, st');
    } else {
      BillsIpc(Block(st, r), st');
    }
  }

  lemma BillsNotify(st: State, src: Pid, d: Pid)
    requires Wf(st) && src < |st.ipc.procs| && d < |st.ipc.procs| && Bills(st)
    ensures Bills(MiniNotify(st, src, d))
  {
    hide Bills, Rights, Wake, BuildMess, ClearArg;
    var st' := MiniNotify(st, src, d);
    RightsNotify(st, src, d);
    if WaitsFor(st.ipc, d, src) && !st.ipc.privs[st.ipc.procs[d].priv].busy {
      BillsWake(st, st'.ipc, d);
    } else {
      BillsIpc(st, st');
    }
  }

  lemma BillsCall(st: State, f: Function, ep: Endpoint, addr: nat, nb: bool, ok: bool)
    requires Wf(st) && Enabled(st, Call(f, ep, addr, nb, ok)) && Bills(st)
    ensures Bills(SysCall(st, f, ep, addr, nb, ok).0)
  {
    hide WfRq, CheckCall, MiniSend, MiniReceive, MiniNotify, Rights, Bills;
    var i, c := st.ipc, st.current;
    var v := i.procs[c].priv;
    if CheckCall(st, f, ep, ok) == OK {
      match f
      case SEND => BillsSend(st, c, ep.pid, addr, nb);
      case SENDREC =>
        var st1 := st.(ipc := SetBusy(i, c, true));
        OneChanged(i, st1.ipc, c, i.procs[c], v, i.privs[v].(busy := true));
        BillsIpc(st, st1);
        BillsSend(st1, c, ep.pid, addr, nb);
        SameProcs(st1, c, ep.pid, addr, nb);
        BillsReceive(MiniSend(st1, c, ep.pid, addr, nb).0, c, ep, addr, nb);
      case RECEIVE =>
        var st0 := st.(ipc := SetBusy(i, c, false));
        OneChanged(i, st0.ipc, c, i.procs[c], v, i.privs[v].(busy := false));
        BillsIpc(st, st0);
        BillsReceive(st0, c, ep, addr, nb);
      case NOTIFY => BillsNotify(st, c, ep.pid);
      case ECHO =>
        RightsCall(st, f, ep, addr, nb, ok);
        BillsIpc(st, SysCall(st, f, ep, addr, nb, ok).0);
    }
  }

  lemma BillsSignal(st: State, d: Pid, sig: nat)
    requires Wf(st) && d < |st.ipc.procs| && Bills(st)
    ensures Bills(SendSig(st, d, sig))
  {
    hide WfRq, MiniNotify, Rights, Bills;
    var i, v := st.ipc, st.ipc.procs[d].priv;
    var j := SetSigs(i, v, i.privs[v].sigs + {sig});
    OneChanged(i, j, d, i.procs[d], v, j.privs[v]);
    BillsIpc(st, st.(ipc := j));
    BillsNotify(st.(ipc := j), SYSTEM, d);
  }

  lemma BillsInterrupt(st: State, d: Pid, bit: nat)
    requires Wf(st) && d < |st.ipc.procs| && Bills(st)
    ensures Bills(Interrupt(st, d, bit))
  {
    hide WfRq, MiniNotify, Rights, Bills;
    var i, v := st.ipc, st.ipc.procs[d].priv;
    var j := SetInts(i, v, i.privs[v].ints + {bit});
    OneChanged(i, j, d, i.procs[d], v, j.privs[v]);
    BillsIpc(st, st.(ipc := j));
    BillsNotify(st.(ipc := j), HARDWARE, d);
  }

  lemma RightsFlags(i: Ipc, p: Pid, rts: Rts, sigs: set<nat>)
    requires WfIpc(i) && p < |i.procs|
    ensures Rights(SetFlags(i, p, rts, sigs)) == Rights(i)
  {
    hide Rights;
    var v := i.procs[p].priv;
    OneChanged(i, SetFlags(i, p, rts, sigs), p, i.procs[p].(rts := rts, sigs := sigs), v, i.privs[v]);
  }

  lemma BillsCause(st: State, p: Pid, sig: nat)
    requires Wf(st) && p < |st.ipc.procs| && Bills(st)
    ensures Bills(CauseSig(st, p, sig))
  {
    hide WfRq, SendSig, Block, Rights, Bills;
    var rp := st.ipc.procs[p];
    if sig !in rp.sigs && rp.rts.signaled {
      RightsFlags(st.ipc, p, rp.rts, rp.sigs + {sig});
      BillsIpc(st, CauseSig(st, p, sig));
    } else if sig !in rp.sigs {
      var rts := rp.rts.(signaled := true, sigPending := true);
      var j := SetFlags(st.ipc, p, rts, rp.sigs + {sig});
      BillsBlock(st, p);
      RightsFlags(st.ipc, p, rts, rp.sigs + {sig});
      BillsIpc(Block(st, p), Block(st, p).(ipc := j));
      BillsSignal(Block(st, p).(ipc := j), PM, SIGKSIG);
    }
  }

  lemma BillsTick(st: State, ticks: nat)
    requires Wf(st) && Bills(st)
    ensures Bills(ClockTick(st, ticks))
  {
    hide MiniNotify, Billing;
    var st1 := st.(rq := ChargeAll(st.ipc, st.rq, st.current, ticks), realtime := st.realtime + ticks);
    BillingSlices(st.ipc, st.rq, st1.rq);
    BillsNotify(st1.(ticked := st.current), HARDWARE, CLOCK);
  }

  lemma BillsNice(st: State, p: Pid, q: nat)
    requires Wf(st) && p < |st.ipc.procs| && q <= MIN_USER_Q && Bills(st)
    ensures Bills(Nice(st, p, q))
  {
    hide Billing, Enqueue, Dequeue;
    var r1 := Dequeue(st.ipc, st.rq, st.current, p);
    var r2 := r1.(slices := r1.slices[p := r1.slices[p].(maxPriority := q, priority := q)]);
    BillingDequeue(st.ipc, st.rq, st.current, p);
    BillingSlices(st.ipc, r1, r2);
    BillingEnqueue(st.ipc, r2, p);
  }

  lemma BillsClockWork(st: State)
    requires Wf(st) && Bills(st)
    ensures Bills(DoClocktick(st))
  {
    hide Billing, Enqueue, Dequeue;
    BillingDequeue(st.ipc, st.rq, st.current, st.ticked);
    BillingEnqueue(st.ipc, Dequeue(st.ipc, st.rq, st.current, st.ticked), st.ticked);
  }

  lemma BillsRest(st: State, s: Step)
    requires Wf(st) && Enabled(st, s) && Bills(st)
    requires s.GetSignal? || s.EndSignal? || s.TraceStop? || s.TraceResume? || s.ProcessExit? || s.SetTimeout? ||
             s.Restart? || s.Write?
    ensures Bills(Next(st, s))
  {
    hide Wake, Block, FirstSignaled, Clear, Bills, Rights, SetFlags, Store;
    RightsRest(st, s);
    SameSizes(st.ipc, Next(st, s).ipc);
    if s.EndSignal? || s.TraceResume? {
      if Next(st, s) != st {
        BillsWake(st, Next(st, s).ipc, s.p);
      }
    } else if s.TraceStop? || s.ProcessExit? {
      BillsBlock(st, s.p);
      BillsIpc(Block(st, s.p), Next(st, s));
    } else {
      BillsIpc(st, Next(st, s));
    }
  }

  /** Every step keeps the billing right, and so does every run: time that is not the running process's
      own is charged to a process that may be billed, the last one that was picked to run. */
  lemma BillingKept(st: State, s: Step)
    requires Wf(st) && Enabled(st, s) && Bills(st)
    ensures Bills(Next(st, s))
  {
    hide WfRq, SysCall, MiniSend, MiniNotify, SendSig, CauseSig, Interrupt, ClockTick, Nice, DoClocktick, Bills;
    match s
    case Call(f, ep, addr, nb, ok) => BillsCall(st, f, ep, addr, nb, ok);
    case Reply(d, addr) => BillsSend(st, SYSTEM, d, addr, true);
    case Irq(d, bit) => BillsInterrupt(st, d, bit);
    case Alarm(d) => BillsNotify(st, CLOCK, d);
    case SystemSignal(d, sig) => BillsSignal(st, d, sig);
    case Signal(d, sig) => BillsCause(st, d, sig);
    case Tick(ticks) => BillsTick(st, ticks);
    case SetNice(p, q) => BillsNice(st, p, q);
    case ClockWork => BillsClockWork(st);
    case _ => BillsRest(st, s);
  }

  lemma {:induction false} RunBills(trace: seq<State>, steps: seq<Step>, k: nat)
    requires IsRun(trace, steps) && k < |trace| && Bills(trace[0])
    ensures Bills(trace[k])
  {
    hide Next, Enabled, Wf, Bills;
    if k > 0 {
      RunBills(trace, steps, k - 1);
      BillingKept(trace[k - 1], steps[k - 1]);
    }
  }

  /** So it is when the small image has been booted. */
  lemma SmallImageBills(st: State)
    requires Inv(st) && st.ipc == SMALL_IMAGE && st.rq.slices == SMALL_QUEUES.slices && st.rq.bill == IDLE
    ensures Wf(st) && Bills(st)
  {
    hide Inv;
    NextIsBest(st, CLOCK);
    assert st.rq.slices[st.rq.next].priority == 0;
  }

  lemma NextIsBest(st: State, p: Pid)
    requires Inv(st) && p < |st.ipc.procs| && Runnable(st.ipc, p)
    ensures Wf(st) && st.rq.slices[st.rq.next].priority <= st.rq.slices[p].priority
  {
    hide IpcInv, SignalsBlock, ReadyExact, NextIsTop, Ranked;
    NextRuns(st.ipc, st.rq);
    assert IsPid(st.ipc, p);
  }
}
