/** What the history of a run may say, and where signals, interrupts and pending notifications go. */
module KernelEvents {
  import opened Options
  import opened KernelState
  import opened KernelHistory
  import opened KernelSteps
  import opened KernelLaws
  import opened KernelClock

  // Why events happen.

  /** The message that `p` has at `addr`, with `p` as the source. */
  function Signed(i: Ipc, p: Pid, addr: nat): Message
    requires p < |i.procs|
  {
    (if addr in i.procs[p].mem then i.procs[p].mem[addr] else BLANK).(source := Nr(p))
  }

  /** Who is notified by a step, and in whose name. */
  ghost predicate Notifies(st: State, s: Step, src: Pid, d: Pid)
    requires Wf(st) && Enabled(st, s)
  {
    match s
    case Call(f, ep, _, _, ok) => f == NOTIFY && src == st.current && ep == Nr(d) && Allowed(st, f, ep, ok)
    case Irq(p, _) => src == HARDWARE && d == p
    case Alarm(p) => src == CLOCK && d == p
    case SystemSignal(p, _) => src == SYSTEM && d == p
    case Signal(p, sig) =>
      src == SYSTEM && d == PM && sig !in st.ipc.procs[p].sigs && !st.ipc.procs[p].rts.signaled
    case Tick(ticks) => src == HARDWARE && d == CLOCK && Due(st, ticks)
    case _ => false
  }

  /** A notification says who it is from, at what time, and has the type of its source. */
  predicate IsNotification(e: Event, now: int) {
    && e.Noticed? && e.m.source == e.from && e.m.body.Notification? && e.m.body.timestamp == now
    && (e.from.Nr? ==> e.m.mtype == NOTIFY_MESSAGE + e.from.pid)
  }

  /** A message is accepted only from the caller, with the contents of the buffer that the call
      names, as its source the caller and for the destination that the call names, and only if the
      call is allowed; or from SYSTEM as a reply.  What is delivered names its sender, and a
      notification is requested only by the steps that do that. */
  ghost predicate Explained(st: State, s: Step, e: Event)
    requires Wf(st) && Enabled(st, s)
  {
    match e
    case Accepted(x, d, m) =>
      || (s.Call? && SendsMessage(s.f) && x == st.current && s.ep == Nr(d) && m == Signed(st.ipc, x, s.addr) &&
          Allowed(st, s.f, s.ep, s.pointerOk))
      || (s.Reply? && x == SYSTEM && d == s.d && m == Signed(st.ipc, x, s.addr))
    case Delivered(x, _, m, _) => m.source == Nr(x)
    case Dropped(x, _, _) => s == ProcessExit(x)
    case Notified(src, d) => Notifies(st, s, src, d)
    case Noticed(_, _, _) => IsNotification(e, Next(st, s).realtime)
    case Exited(x) => s == ProcessExit(x)
  }

  lemma SendEvents(st: State, s: Pid, d: Pid, addr: nat, nb: bool)
    requires Wf(st) && s < |st.ipc.procs| && d < |st.ipc.procs|
    ensures var o, m := MiniSend(st, s, d, addr, nb), Signed(st.ipc, s, addr);
            var es := New(st.ipc, o.0.ipc);
            && Grows(st.ipc, o.0.ipc) && o.0.realtime == st.realtime
            && (es == [] || es == [Accepted(s, d, m)] || es == [Accepted(s, d, m), Delivered(s, d, m, !nb)])
            && (o.1 == OK <==> es != []) && (o.1 != OK ==> o.0 == st)
  {
    hide WfRq, WfIpc, WouldLock, Enqueue, Dequeue;
    var i, m := st.ipc, Signed(st.ipc, s, addr);
    NewIs(i, i, []);
    NewIs(i, SendNow(i, s, d, addr, !nb), [Accepted(s, d, m), Delivered(s, d, m, !nb)]);
    NewIs(i, SendLater(i, s, d, addr), [Accepted(s, d, m)]);
  }

  predicate IsDelivery(e: Event) {
    e.Delivered? && e.m.source == Nr(e.src)
  }

  lemma ReceiveEvents(st: State, r: Pid, src: Endpoint, addr: nat, nb: bool)
    requires Wf(st) && r < |st.ipc.procs|
    ensures var o := MiniReceive(st, r, src, addr, nb);
            var es := New(st.ipc, o.0.ipc);
            && Grows(st.ipc, o.0.ipc) && o.0.realtime == st.realtime
            && (es == [] || (|es| == 1 && (IsDelivery(es[0]) || IsNotification(es[0], st.realtime))))
            && (o.1 != OK ==> o.0 == st)
  {
    hide WfRq, Enqueue, Dequeue, FindNotify;
    var i := st.ipc;
    var j := MiniReceive(st, r, src, addr, nb).0.ipc;
    NewIs(i, j, j.log[|i.log|..]);
  }

  lemma NotifyEvents(st: State, src: Pid, d: Pid)
    requires Wf(st) && src < |st.ipc.procs| && d < |st.ipc.procs|
    ensures var st' := MiniNotify(st, src, d);
            var es := New(st.ipc, st'.ipc);
            && Grows(st.ipc, st'.ipc) && st'.realtime == st.realtime
            && 1 <= |es| <= 2 && es[0] == Notified(src, d)
            && (|es| == 2 ==> IsNotification(es[1], st.realtime) && es[1].from == Nr(src) && es[1].dst == d)
  {
    hide WfRq, Enqueue, Dequeue;
    var i := st.ipc;
    var j := MiniNotify(st, src, d).ipc;
    NewIs(i, j, j.log[|i.log|..]);
  }

  /** What a call that is carried out writes into the history. */
  predicate CallEvent(st: State, f: Function, ep: Endpoint, addr: nat, e: Event)
    requires Wf(st)
  {
    match e
    case Accepted(x, d, m) => SendsMessage(f) && x == st.current && ep == Nr(d) && m == Signed(st.ipc, x, addr)
    case Delivered(_, _, _, _) => IsDelivery(e)
    case Noticed(_, _, _) => IsNotification(e, st.realtime)
    case Notified(x, d) => f == NOTIFY && x == st.current && ep == Nr(d)
    case _ => false
  }

  ghost predicate CallEventsOnly(st: State, f: Function, ep: Endpoint, addr: nat, st': State)
    requires Wf(st)
  {
    && Grows(st.ipc, st'.ipc) && st'.realtime == st.realtime
    && var es := New(st.ipc, st'.ipc);
       && (forall n :: 0 <= n < |es| ==> CallEvent(st, f, ep, addr, es[n]))
       && (f == NOTIFY && ep.Nr? ==> es != [] && es[0] == Notified(st.current, ep.pid))
  }

  lemma SendRecEvents(st: State, ep: Endpoint, addr: nat, nb: bool)
    requires Wf(st) && ep.Nr? && ep.pid < |st.ipc.procs|
    ensures CallEventsOnly(st, SENDREC, ep, addr, SendRec(st, st.current, ep.pid, addr, nb).0)
  {
    hide WfRq, MiniSend, MiniReceive;
    var c := st.current;
    var st1 := st.(ipc := SetBusy(st.ipc, c, true));
    SendEvents(st1, c, ep.pid, addr, nb);
    var m := MiniSend(st1, c, ep.pid, addr, nb).0;
    ReceiveEvents(m, c, ep, addr, nb);
    NewBoth(st1.ipc, m.ipc, MiniReceive(m, c, ep, addr, nb).0.ipc);
  }

  lemma OneCallEvents(st: State, f: Function, ep: Endpoint, addr: nat, nb: bool, ok: bool)
    requires Wf(st) && Enabled(st, Call(f, ep, addr, nb, ok)) && CheckCall(st, f, ep, ok) == OK
    ensures CallEventsOnly(st, f, ep, addr, SysCall(st, f, ep, addr, nb, ok).0)
  {
    hide WfRq, CheckCall, MiniSend, MiniReceive, MiniNotify, SendRec;
    var c := st.current;
    match f
    case SEND => SendEvents(st, c, ep.pid, addr, nb);
    case SENDREC => SendRecEvents(st, ep, addr, nb);
    case RECEIVE => ReceiveEvents(st.(ipc := SetBusy(st.ipc, c, false)), c, ep, addr, nb);
    case NOTIFY => NotifyEvents(st, c, ep.pid);
    case ECHO => NewIs(st.ipc, SysCall(st, f, ep, addr, nb, ok).0.ipc, []);
  }

  ghost predicate AllExplained(st: State, s: Step)
    requires Wf(st) && Enabled(st, s)
  {
    && Grows(st.ipc, Next(st, s).ipc)
    && var es := New(st.ipc, Next(st, s).ipc);
       && (forall n :: 0 <= n < |es| ==> Explained(st, s, es[n]))
       && forall src, d :: Notifies(st, s, src, d) ==> Notified(src, d) in es
  }

  lemma CallExplained(st: State, f: Function, ep: Endpoint, addr: nat, nb: bool, ok: bool)
    requires Wf(st) && Enabled(st, Call(f, ep, addr, nb, ok))
    ensures AllExplained(st, Call(f, ep, addr, nb, ok))
  {
    hide WfRq, CheckCall, SysCall, Allowed;
    Checked(st, f, ep, addr, nb, ok);
    if CheckCall(st, f, ep, ok) == OK {
      OneCallEvents(st, f, ep, addr, nb, ok);
    } else {
      NewIs(st.ipc, st.ipc, []);
    }
  }

  /** The history of `j` has a request of `src` to notify `d`, and perhaps its delivery. */
  ghost predicate OneNotice(i: Ipc, j: Ipc, src: Pid, d: Pid, now: int) {
    && Grows(i, j)
    && var es := New(i, j);
       && 1 <= |es| <= 2 && es[0] == Notified(src, d)
       && (|es| == 2 ==> IsNotification(es[1], now))
  }

  lemma NoticeExplained(st: State, s: Step, src: Pid, d: Pid)
    requires Wf(st) && Enabled(st, s) && OneNotice(st.ipc, Next(st, s).ipc, src, d, Next(st, s).realtime)
    requires forall a, b :: Notifies(st, s, a, b) <==> a == src && b == d
    ensures AllExplained(st, s)
  {
    hide Next, Enabled, Notifies;
  }

  lemma NothingExplained(st: State, s: Step)
    requires Wf(st) && Enabled(st, s) && Grows(st.ipc, Next(st, s).ipc) && New(st.ipc, Next(st, s).ipc) == []
    requires forall a, b :: !Notifies(st, s, a, b)
    ensures AllExplained(st, s)
  {
    hide Next, Enabled, Notifies;
  }

  lemma SignalNotice(st: State, d: Pid, sig: nat)
    requires Wf(st) && d < |st.ipc.procs|
    ensures OneNotice(st.ipc, SendSig(st, d, sig).ipc, SYSTEM, d, st.realtime) &&
            SendSig(st, d, sig).realtime == st.realtime
  {
    hide WfRq, MiniNotify;
    var v := st.ipc.procs[d].priv;
    NotifyEvents(st.(ipc := SetSigs(st.ipc, v, st.ipc.privs[v].sigs + {sig})), SYSTEM, d);
  }

  lemma InterruptNotice(st: State, d: Pid, bit: nat)
    requires Wf(st) && d < |st.ipc.procs|
    ensures OneNotice(st.ipc, Interrupt(st, d, bit).ipc, HARDWARE, d, st.realtime) &&
            Interrupt(st, d, bit).realtime == st.realtime
  {
    hide WfRq, MiniNotify;
    var v := st.ipc.procs[d].priv;
    NotifyEvents(st.(ipc := SetInts(st.ipc, v, st.ipc.privs[v].ints + {bit})), HARDWARE, d);
  }

  lemma CauseExplained(st: State, p: Pid, sig: nat)
    requires Wf(st) && Enabled(st, Signal(p, sig))
    ensures AllExplained(st, Signal(p, sig))
  {
    hide WfRq, SendSig, Dequeue, OneNotice, AllExplained;
    var rp := st.ipc.procs[p];
    if sig in rp.sigs || rp.rts.signaled {
      NewIs(st.ipc, CauseSig(st, p, sig).ipc, []);
      NothingExplained(st, Signal(p, sig));
    } else {
      var j := SetFlags(st.ipc, p, rp.rts.(signaled := true, sigPending := true), rp.sigs + {sig});
      SignalNotice(Block(st, p).(ipc := j), PM, SIGKSIG);
      SameNotice(st.ipc, j, CauseSig(st, p, sig).ipc, SYSTEM, PM, st.realtime);
      NoticeExplained(st, Signal(p, sig), SYSTEM, PM);
    }
  }

  lemma SameNotice(i: Ipc, j: Ipc, k: Ipc, src: Pid, d: Pid, now: int)
    requires |j.procs| == |i.procs| && j.log == i.log && OneNotice(j, k, src, d, now)
    ensures OneNotice(i, k, src, d, now)
  {
  }

  lemma TickExplained(st: State, ticks: nat)
    requires Wf(st) && Enabled(st, Tick(ticks))
    ensures AllExplained(st, Tick(ticks))
  {
    hide MiniNotify, ChargeAll, AllExplained, CreditAfter;
    AllCharged(st, ticks, st.current);
    var st1 := st.(rq := ChargeAll(st.ipc, st.rq, st.current, ticks), realtime := st.realtime + ticks);
    if st1.nextTimeout <= st1.realtime || st1.rq.slices[st.current].ticksLeft <= 0 {
      NotifyEvents(st1.(ticked := st.current), HARDWARE, CLOCK);
      assert OneNotice(st.ipc, Next(st, Tick(ticks)).ipc, HARDWARE, CLOCK, st1.realtime);
      NoticeExplained(st, Tick(ticks), HARDWARE, CLOCK);
    } else {
      NewIs(st.ipc, st.ipc, []);
      NothingExplained(st, Tick(ticks));
    }
  }

  lemma ExitExplained(st: State, p: Pid)
    requires Wf(st) && Enabled(st, ProcessExit(p))
    ensures AllExplained(st, ProcessExit(p))
  {
    hide WfRq, WfIpc, Dequeue;
    var i, j := st.ipc, Clear(st.ipc, p);
    NewIs(i, j, j.log[|i.log|..]);
  }

  lemma RestExplained(st: State, s: Step)
    requires Wf(st) && Enabled(st, s)
    requires !(s.Call? || s.Reply? || s.Irq? || s.Alarm? || s.SystemSignal? || s.Signal? || s.Tick? || s.ProcessExit?)
    ensures AllExplained(st, s)
  {
    hide Next, Enabled;
    SeesRest(st, s, st.current);
    NewIs(st.ipc, Next(st, s).ipc, []);
  }

  /** Every event of every step has its reason, and every notification that a step is to make is
      requested. */
  lemma EventsExplained(st: State, s: Step)
    requires Wf(st) && Enabled(st, s)
    ensures AllExplained(st, s)
  {
    hide WfRq, SysCall, MiniSend, MiniNotify, SendSig, CauseSig, Interrupt, ClockTick, Exit, AllExplained, OneNotice;
    match s
    case Call(f, ep, addr, nb, ok) => CallExplained(st, f, ep, addr, nb, ok);
    case Reply(d, addr) => ReplyExplained(st, d, addr);
    case Irq(d, bit) =>
      InterruptNotice(st, d, bit);
      NoticeExplained(st, s, HARDWARE, d);
    case Alarm(d) => AlarmExplained(st, d);
    case SystemSignal(d, sig) =>
      SignalNotice(st, d, sig);
      NoticeExplained(st, s, SYSTEM, d);
    case Signal(d, sig) => CauseExplained(st, d, sig);
    case Tick(ticks) => TickExplained(st, ticks);
    case ProcessExit(q) => ExitExplained(st, q);
    case _ => RestExplained(st, s);
  }

  lemma ReplyExplained(st: State, d: Pid, addr: nat)
    requires Wf(st) && Enabled(st, Reply(d, addr))
    ensures AllExplained(st, Reply(d, addr))
  {
    hide WfRq, MiniSend;
    SendEvents(st, SYSTEM, d, addr, true);
  }

  lemma AlarmExplained(st: State, d: Pid)
    requires Wf(st) && Enabled(st, Alarm(d))
    ensures AllExplained(st, Alarm(d))
  {
    hide WfRq, MiniNotify, AllExplained;
    NotifyEvents(st, CLOCK, d);
    NoticeExplained(st, Alarm(d), CLOCK, d);
  }

  // Results.

  /** An allowed send succeeds if and only if the message is accepted, which is so unless a cycle of
      senders would be closed or the caller would have to wait and does not want to; and a send that
      does not succeed changes nothing. */
  lemma SendOutcome(st: State, ep: Endpoint, addr: nat, nb: bool, ok: bool)
    requires Wf(st) && Enabled(st, Call(SEND, ep, addr, nb, ok)) && Allowed(st, SEND, ep, ok)
    ensures ep.Nr? && ep.pid < |st.ipc.procs|
    ensures var o, s, d := SysCall(st, SEND, ep, addr, nb, ok), st.current, ep.pid;
            && (o.1 == OK <==> Accepted(s, d, Signed(st.ipc, s, addr)) in New(st.ipc, o.0.ipc))
            && (o.1 == OK <==> !WouldLock(st.ipc, s, d) && (!nb || WaitsFor(st.ipc, d, s)))
            && (o.1 == ELOCKED <==> WouldLock(st.ipc, s, d))
            && (o.1 == OK || o.1 == ELOCKED || o.1 == ENOTREADY)
            && (o.1 != OK ==> o.0 == st)
  {
    hide WfRq, CheckCall, WouldLock, Enqueue, Dequeue, Signed, New;
    Checked(st, SEND, ep, addr, nb, ok);
    SendEvents(st, st.current, ep.pid, addr, nb);
  }

  /** An allowed receive succeeds if and only if it brings a message or the caller now waits for one;
      if it does not, the caller did not want to wait and no message that it accepts is queued. */
  lemma ReceiveOutcome(st: State, ep: Endpoint, addr: nat, nb: bool, ok: bool)
    requires Wf(st) && Enabled(st, Call(RECEIVE, ep, addr, nb, ok)) && Allowed(st, RECEIVE, ep, ok)
    ensures var o, c := SysCall(st, RECEIVE, ep, addr, nb, ok), st.current;
            && |o.0.ipc.procs| == |st.ipc.procs|
            && (o.1 == OK <==> Got(New(st.ipc, o.0.ipc), c) != [] || o.0.ipc.procs[c].rts.receiving)
            && (o.1 == OK || o.1 == ENOTREADY)
            && (nb ==> !o.0.ipc.procs[c].rts.receiving)
            && (o.1 == ENOTREADY ==> nb && forall x :: x in st.ipc.callers[c] ==> ep != Any && ep != Nr(x))
  {
    hide WfRq, CheckCall, MiniReceive, Got;
    var s := Call(RECEIVE, ep, addr, nb, ok);
    Checked(st, RECEIVE, ep, addr, nb, ok);
    AgreesCall(st, RECEIVE, ep, addr, nb, ok, st.current);
    NoneAccepted(st.(ipc := SetBusy(st.ipc, st.current, false)), st.current, ep, addr, nb);
  }

  lemma NoneAccepted(st: State, r: Pid, src: Endpoint, addr: nat, nb: bool)
    requires Wf(st) && r < |st.ipc.procs| && Runnable(st.ipc, r)
    ensures var o := MiniReceive(st, r, src, addr, nb);
            && (o.1 == OK || o.1 == ENOTREADY)
            && |o.0.ipc.procs| == |st.ipc.procs| && (nb ==> !o.0.ipc.procs[r].rts.receiving)
            && (o.1 == ENOTREADY ==> nb && forall x :: x in st.ipc.callers[r] ==> src != Any && src != Nr(x))
  {
    hide WfRq, Enqueue, Dequeue, FindNotify, Letter, BuildMess;
  }

  // Every run.

  /** In every run that starts without a history: everything in the history was written by a step
      that had a reason for it, as `Explained` says. */
  lemma {:induction false} HistoryExplained(trace: seq<State>, steps: seq<Step>, k: nat, n: nat) returns (j: nat)
    requires IsRun(trace, steps) && trace[0].ipc.log == [] && k < |trace| && n < |trace[k].ipc.log|
    ensures j < k && |trace[j].ipc.log| <= n < |trace[j + 1].ipc.log| && Grows(trace[j].ipc, trace[j + 1].ipc)
    ensures Explained(trace[j], steps[j], trace[k].ipc.log[n])
  {
    hide Next, Enabled, Explained, Wf;
    j := k - 1;
    EventsExplained(trace[j], steps[j]);
    if n < |trace[j].ipc.log| {
      assert trace[k].ipc.log[n] == trace[k].ipc.log[..|trace[j].ipc.log|][n];
      j := HistoryExplained(trace, steps, k - 1, n);
    } else {
      assert New(trace[j].ipc, trace[k].ipc)[n - |trace[j].ipc.log|] == trace[k].ipc.log[n];
    }
  }

  /** When a quantum is used up the clock task is notified. */
  lemma ClockTold(trace: seq<State>, steps: seq<Step>, k: nat, p: Pid)
    requires IsRun(trace, steps) && UsedUp(trace, steps, k, p)
    ensures Notified(HARDWARE, CLOCK) in New(trace[k].ipc, trace[k + 1].ipc)
  {
    hide Next, Enabled, Due, Wf;
    EventsExplained(trace[k], steps[k]);
    assert Notifies(trace[k], steps[k], HARDWARE, CLOCK);
  }
}
