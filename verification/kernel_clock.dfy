/** Who pays for the time that passes, and that a quantum is used up. */
module KernelClock {
  import opened Options
  import opened KernelState
  import opened KernelSteps
  import opened KernelLaws

  predicate Preemptible(st: State, p: Pid)
    requires Wf(st) && p < |st.ipc.procs|
  {
    st.ipc.privs[st.ipc.procs[p].priv].preemptible
  }

  predicate Billable(st: State, p: Pid)
    requires Wf(st) && p < |st.ipc.procs|
  {
    st.ipc.privs[st.ipc.procs[p].priv].billable
  }

  /** How often `p` pays for each tick: as the running process, if that can be preempted, and as the
      one to bill, if the running one is not billable. */
  function Shares(st: State, p: Pid): nat
    requires Wf(st) && p < |st.ipc.procs|
  {
    (if p == st.current && Preemptible(st, p) then 1 else 0) +
    (if p == st.rq.bill && !Billable(st, st.current) then 1 else 0)
  }

  /** The credit of `p` when the time has been charged, which is kept in a signed char. */
  function CreditAfter(st: State, ticks: nat, p: Pid): (y: int)
    requires Wf(st) && p < |st.ipc.procs|
    ensures Shares(st, p) == 0 ==> y == st.rq.slices[p].ticksLeft
    ensures Shares(st, p) > 0 ==>
              -128 <= y < 128 && (st.rq.slices[p].ticksLeft - Shares(st, p) * ticks - y) % 256 == 0
  {
    var x := st.rq.slices[p].ticksLeft - Shares(st, p) * ticks;
    if Shares(st, p) == 0 then x else (x + 128) % 256 - 128
  }

  lemma CharTwice(x: int, a: int)
    ensures ToChar(ToChar(x) - a) == ToChar(x - a)
  {
  }

  /** The credits after a tick, and before the clock task is told. */
  lemma AllCharged(st: State, ticks: nat, p: Pid)
    requires Wf(st) && p < |st.ipc.procs|
    ensures var r := ChargeAll(st.ipc, st.rq, st.current, ticks);
            && r == st.rq.(slices := r.slices)
            && r.slices[p] == st.rq.slices[p].(ticksLeft := CreditAfter(st, ticks, p))
  {
    hide WfIpc, ToChar, CreditAfter;
    var x := st.rq.slices[p].ticksLeft;
    CharTwice(x - ticks, ticks);
    CreditIs(st, ticks, p);
  }

  lemma CreditIs(st: State, ticks: nat, p: Pid)
    requires Wf(st) && p < |st.ipc.procs|
    ensures var x := st.rq.slices[p].ticksLeft;
            var mine, billed := p == st.current && Preemptible(st, p), p == st.rq.bill && !Billable(st, st.current);
            CreditAfter(st, ticks, p) ==
            if mine && billed then ToChar(x - ticks - ticks) else if mine || billed then ToChar(x - ticks) else x
  {
  }

  /** `e` is `r` with process `p` announced, which is the only one that can get a new quantum, and
      only if it used up the old one. */
  lemma EnqueueCredit(i: Ipc, r: Rq, p: Pid, x: Pid)
    requires WfIpc(i) && WfRq(r, |i.procs|) && p < |i.procs| && x < |i.procs|
    ensures Renewed(r.slices[x], Enqueue(i, r, p).slices[x])
    ensures x != p ==> Enqueue(i, r, p).slices[x] == r.slices[x]
  {
    hide WfIpc, PickProc, Clamp;
  }

  /** Nothing happened to the credit, or it was used up and there is a new quantum. */
  predicate Renewed(s: Slice, s': Slice) {
    && s'.quantum == s.quantum && s'.maxPriority == s.maxPriority
    && (s' == s || (s.ticksLeft <= 0 && s'.ticksLeft == s.quantum))
  }

  /** Is the clock task to be told? */
  predicate Due(st: State, ticks: nat)
    requires Wf(st)
  {
    st.nextTimeout <= st.realtime + ticks || CreditAfter(st, ticks, st.current) <= 0
  }

  /** A clock tick, as the running process and the one to bill see it: all that changes are the time,
      the credit of those two and, if CLOCK is told, prev_ptr, its messages and its place on the
      ready queues, where it gets a new quantum if it has none left. */
  lemma TickCharges(st: State, ticks: nat, p: Pid)
    requires Wf(st) && p < |st.ipc.procs|
    ensures var st' := Next(st, Tick(ticks));
            var s := st.rq.slices[p].(ticksLeft := CreditAfter(st, ticks, p));
            && st'.realtime == st.realtime + ticks
            && st'.ticked == (if Due(st, ticks) then st.current else st.ticked)
            && st'.current == st.current && st'.nextTimeout == st.nextTimeout
            && |st'.rq.slices| == |st.rq.slices|
            && (if p == CLOCK && Due(st, ticks) then Renewed(s, st'.rq.slices[p]) else st'.rq.slices[p] == s)
            && (!Due(st, ticks) ==> st'.ipc == st.ipc && st'.rq == st.rq.(slices := st'.rq.slices))
  {
    hide CreditAfter, ChargeAll, Enqueue, NoticeNow, NoticeLater, MiniNotify;
    var st1 := st.(rq := ChargeAll(st.ipc, st.rq, st.current, ticks), realtime := st.realtime + ticks);
    AllCharged(st, ticks, p);
    AllCharged(st, ticks, st.current);
    if Due(st, ticks) {
      NotifyCredit(st1.(ticked := st.current), HARDWARE, CLOCK, p);
    }
  }

  lemma NotifyCredit(st: State, src: Pid, d: Pid, x: Pid)
    requires Wf(st) && src < |st.ipc.procs| && d < |st.ipc.procs| && x < |st.ipc.procs|
    ensures var st' := MiniNotify(st, src, d);
            && st' == st.(ipc := st'.ipc, rq := st'.rq) && |st'.rq.slices| == |st.rq.slices|
            && Renewed(st.rq.slices[x], st'.rq.slices[x])
            && (x != d ==> st'.rq.slices[x] == st.rq.slices[x])
  {
    hide WfIpc, Enqueue, NoticeLater;
    var i := NoticeNow(st.ipc, src, d, st.realtime);
    EnqueueCredit(i, st.rq, d, x);
  }

  // The steps between the ticks.

  lemma DequeueCredit(i: Ipc, r: Rq, current: Pid, p: Pid)
    requires WfIpc(i) && WfRq(r, |i.procs|) && p < |i.procs|
    ensures Dequeue(i, r, current, p).slices == r.slices
  {
    hide WfIpc;
  }

  lemma WakeCredit(st: State, i: Ipc, p: Pid, x: Pid)
    requires Wf(st) && WfIpc(i) && |i.procs| == |st.ipc.procs| && p < |i.procs| && x < |i.procs|
    ensures |Wake(st, i, p).rq.slices| == |st.rq.slices|
    ensures Renewed(st.rq.slices[x], Wake(st, i, p).rq.slices[x])
  {
    hide WfIpc, Enqueue;
    EnqueueCredit(i, st.rq, p, x);
  }

  lemma BlockCredit(st: State, p: Pid)
    requires Wf(st) && p < |st.ipc.procs|
    ensures Block(st, p).rq.slices == st.rq.slices
  {
    hide WfIpc, Dequeue;
    DequeueCredit(st.ipc, st.rq, st.current, p);
  }

  lemma SendCredit(st: State, s: Pid, d: Pid, addr: nat, nb: bool, x: Pid)
    requires Wf(st) && s < |st.ipc.procs| && d < |st.ipc.procs| && x < |st.ipc.procs|
    ensures var st' := MiniSend(st, s, d, addr, nb).0;
            && |st'.rq.slices| == |st.rq.slices| && Renewed(st.rq.slices[x], st'.rq.slices[x])
  {
    hide WouldLock, Wake, Block, Renewed, Letter;
    Same(st.rq.slices[x]);
    WakeCredit(st, SendNow(st.ipc, s, d, addr, !nb), d, x);
    BlockCredit(st, s);
  }

  lemma Same(s: Slice)
    ensures Renewed(s, s)
  {
  }

  lemma ReceiveCredit(st: State, r: Pid, src: Endpoint, addr: nat, nb: bool, x: Pid)
    requires Wf(st) && r < |st.ipc.procs| && x < |st.ipc.procs|
    ensures var st' := MiniReceive(st, r, src, addr, nb).0;
            && |st'.rq.slices| == |st.rq.slices| && Renewed(st.rq.slices[x], st'.rq.slices[x])
  {
    hide Wake, Block, Renewed, FindNotify, FirstFrom, Letter;
    var k := FirstFrom(st.ipc.callers[r], src);
    Same(st.rq.slices[x]);
    if k < |st.ipc.callers[r]| {
      WakeCredit(st, TakeQueued(st.ipc, r, k, addr), st.ipc.callers[r][k], x);
    }
    BlockCredit(st, r);
  }

  lemma CallCredit(st: State, f: Function, ep: Endpoint, addr: nat, nb: bool, ok: bool, x: Pid)
    requires Wf(st) && Enabled(st, Call(f, ep, addr, nb, ok)) && x < |st.ipc.procs|
    ensures var st' := SysCall(st, f, ep, addr, nb, ok).0;
            && |st'.rq.slices| == |st.rq.slices| && Renewed(st.rq.slices[x], st'.rq.slices[x])
  {
    hide WfRq, CheckCall, MiniSend, MiniReceive, MiniNotify;
    var c := st.current;
    if CheckCall(st, f, ep, ok) == OK {
      match f
      case SEND => SendCredit(st, c, ep.pid, addr, nb, x);
      case SENDREC =>
        var st1 := st.(ipc := SetBusy(st.ipc, c, true));
        var m := MiniSend(st1, c, ep.pid, addr, nb).0;
        SendCredit(st1, c, ep.pid, addr, nb, x);
        SameProcs(st1, c, ep.pid, addr, nb);
        ReceiveCredit(m, c, ep, addr, nb, x);
      case RECEIVE => ReceiveCredit(st.(ipc := SetBusy(st.ipc, c, false)), c, ep, addr, nb, x);
      case NOTIFY => NotifyCredit(st, c, ep.pid, x);
      case ECHO =>
    }
  }

  lemma SignalCredit(st: State, p: Pid, sig: nat, x: Pid)
    requires Wf(st) && p < |st.ipc.procs| && x < |st.ipc.procs|
    ensures var st' := SendSig(st, p, sig);
            && |st'.rq.slices| == |st.rq.slices| && Renewed(st.rq.slices[x], st'.rq.slices[x])
  {
    hide WfRq, MiniNotify;
    var v := st.ipc.procs[p].priv;
    NotifyCredit(st.(ipc := SetSigs(st.ipc, v, st.ipc.privs[v].sigs + {sig})), SYSTEM, p, x);
  }

  lemma InterruptCredit(st: State, p: Pid, bit: nat, x: Pid)
    requires Wf(st) && p < |st.ipc.procs| && x < |st.ipc.procs|
    ensures var st' := Interrupt(st, p, bit);
            && |st'.rq.slices| == |st.rq.slices| && Renewed(st.rq.slices[x], st'.rq.slices[x])
  {
    hide WfRq, MiniNotify;
    var v := st.ipc.procs[p].priv;
    NotifyCredit(st.(ipc := SetInts(st.ipc, v, st.ipc.privs[v].ints + {bit})), HARDWARE, p, x);
  }

  lemma CauseCredit(st: State, p: Pid, sig: nat, x: Pid)
    requires Wf(st) && p < |st.ipc.procs| && x < |st.ipc.procs|
    ensures var st' := CauseSig(st, p, sig);
            && |st'.rq.slices| == |st.rq.slices| && Renewed(st.rq.slices[x], st'.rq.slices[x])
  {
    hide WfRq, SendSig, Block;
    var rp := st.ipc.procs[p];
    var j := SetFlags(st.ipc, p, rp.rts.(signaled := true, sigPending := true), rp.sigs + {sig});
    BlockCredit(st, p);
    SignalCredit(Block(st, p).(ipc := j), PM, SIGKSIG, x);
  }

  /** do_nice: the process gets the new limit, and with credit left the new priority. */
  lemma NiceCredit(st: State, p: Pid, q: nat, x: Pid)
    requires Wf(st) && p < |st.ipc.procs| && q <= MIN_USER_Q && x < |st.ipc.procs|
    ensures var st' := Nice(st, p, q);
            var s := st.rq.slices[x];
            && |st'.rq.slices| == |st.rq.slices|
            && Renewed(if x == p then s.(priority := q, maxPriority := q) else s, st'.rq.slices[x])
  {
    hide WfIpc, Enqueue, Dequeue;
    DequeueCredit(st.ipc, st.rq, st.current, p);
    var r1 := Dequeue(st.ipc, st.rq, st.current, p);
    var r2 := r1.(slices := r1.slices[p := r1.slices[p].(maxPriority := q, priority := q)]);
    WakeCredit(st.(rq := r2), st.ipc, p, x);
  }

  lemma ClockWorkCredit(st: State, x: Pid)
    requires Wf(st) && x < |st.ipc.procs|
    ensures var st' := DoClocktick(st);
            && |st'.rq.slices| == |st.rq.slices| && Renewed(st.rq.slices[x], st'.rq.slices[x])
  {
    hide WfIpc, Enqueue, Dequeue;
    DequeueCredit(st.ipc, st.rq, st.current, st.ticked);
    EnqueueCredit(st.ipc, Dequeue(st.ipc, st.rq, st.current, st.ticked), st.ticked, x);
  }

  lemma FlagsCredit(st: State, s: Step, x: Pid)
    requires Wf(st) && Enabled(st, s) && x < |st.ipc.procs|
    requires s.GetSignal? || s.EndSignal? || s.TraceStop? || s.TraceResume? || s.ProcessExit? || s.SetTimeout? ||
             s.Restart? || s.Write?
    ensures var st' := Next(st, s);
            && |st'.rq.slices| == |st.rq.slices| && Renewed(st.rq.slices[x], st'.rq.slices[x])
  {
    hide Wake, Block, FirstSignaled, Clear, Renewed;
    Same(st.rq.slices[x]);
    match s
    case EndSignal(p) =>
      var rp := st.ipc.procs[p];
      WakeCredit(st, SetFlags(st.ipc, p, rp.rts.(sigPending := false), rp.sigs), p, x);
    case TraceStop(p) => BlockCredit(st, p);
    case TraceResume(p) =>
      var rp := st.ipc.procs[p];
      WakeCredit(st, SetFlags(st.ipc, p, rp.rts.(stopped := false), rp.sigs), p, x);
    case ProcessExit(p) => BlockCredit(st, p);
    case _ =>
  }

  /** Between the ticks nobody's credit changes, unless it is used up; nobody's limit, unless by
      do_nice. */
  lemma StepCredit(st: State, s: Step, x: Pid)
    requires Wf(st) && Enabled(st, s) && !s.Tick? && x < |st.ipc.procs|
    ensures var t, st' := st.rq.slices[x], Next(st, s);
            && |st'.rq.slices| == |st.rq.slices|
            && Renewed(if s.SetNice? && s.p == x then t.(priority := s.q, maxPriority := s.q) else t, st'.rq.slices[x])
  {
    hide WfRq, SysCall, MiniSend, MiniNotify, SendSig, CauseSig, Interrupt, Nice, DoClocktick, Renewed, Clear;
    match s
    case Call(f, ep, addr, nb, ok) => CallCredit(st, f, ep, addr, nb, ok, x);
    case Reply(d, addr) => SendCredit(st, SYSTEM, d, addr, true, x);
    case Irq(d, bit) => InterruptCredit(st, d, bit, x);
    case Alarm(d) => NotifyCredit(st, CLOCK, d, x);
    case SystemSignal(d, sig) => SignalCredit(st, d, sig, x);
    case Signal(d, sig) => CauseCredit(st, d, sig, x);
    case SetNice(p, q) => NiceCredit(st, p, q, x);
    case ClockWork => ClockWorkCredit(st, x);
    case _ => FlagsCredit(st, s, x);
  }

  /** Only what has to do with messages and scheduling differs. */
  ghost predicate OnlyTables(st: State, st': State) {
    st' == st.(ipc := st'.ipc, rq := st'.rq)
  }

  lemma TrapTables(st: State, c: Pid, d: Pid, src: Endpoint, addr: nat, nb: bool)
    requires Wf(st) && c < |st.ipc.procs| && d < |st.ipc.procs|
    ensures OnlyTables(st, MiniSend(st, c, d, addr, nb).0)
    ensures OnlyTables(st, MiniReceive(st, c, src, addr, nb).0)
    ensures OnlyTables(st, MiniNotify(st, c, d))
  {
    hide WfRq, WouldLock, FindNotify, SendNow, SendLater, TakeNotice, ReceiveLater, NoticeNow, NoticeLater, Enqueue,
      Dequeue, Letter;
  }

  lemma CallTables(st: State, f: Function, ep: Endpoint, addr: nat, nb: bool, ok: bool)
    requires Wf(st) && Enabled(st, Call(f, ep, addr, nb, ok))
    ensures OnlyTables(st, SysCall(st, f, ep, addr, nb, ok).0)
  {
    hide WfRq, CheckCall, MiniSend, MiniReceive, MiniNotify;
    var c := st.current;
    if CheckCall(st, f, ep, ok) == OK {
      match f
      case SEND => TrapTables(st, c, ep.pid, ep, addr, nb);
      case SENDREC =>
        var st1 := st.(ipc := SetBusy(st.ipc, c, true));
        TrapTables(st1, c, ep.pid, ep, addr, nb);
        SameProcs(st1, c, ep.pid, addr, nb);
        TrapTables(MiniSend(st1, c, ep.pid, addr, nb).0, c, ep.pid, ep, addr, nb);
      case RECEIVE => TrapTables(st.(ipc := SetBusy(st.ipc, c, false)), c, c, ep, addr, nb);
      case NOTIFY => TrapTables(st, c, ep.pid, ep, addr, nb);
      case ECHO =>
    }
  }

  lemma SignalTables(st: State, p: Pid, sig: nat)
    requires Wf(st) && p < |st.ipc.procs|
    ensures OnlyTables(st, SendSig(st, p, sig))
  {
    hide WfRq, MiniNotify;
    var v := st.ipc.procs[p].priv;
    TrapTables(st.(ipc := SetSigs(st.ipc, v, st.ipc.privs[v].sigs + {sig})), SYSTEM, p, Any, 0, true);
  }

  lemma CauseTables(st: State, p: Pid, sig: nat)
    requires Wf(st) && p < |st.ipc.procs|
    ensures OnlyTables(st, CauseSig(st, p, sig))
  {
    hide WfRq, SendSig, Dequeue;
    var rp := st.ipc.procs[p];
    var j := SetFlags(st.ipc, p, rp.rts.(signaled := true, sigPending := true), rp.sigs + {sig});
    SignalTables(Block(st, p).(ipc := j), PM, SIGKSIG);
  }

  lemma RestTables(st: State, s: Step)
    requires Wf(st) && Enabled(st, s)
    requires s.GetSignal? || s.EndSignal? || s.TraceStop? || s.TraceResume? || s.ProcessExit? || s.Write? ||
             s.SetNice? || s.ClockWork?
    ensures OnlyTables(st, Next(st, s))
  {
    hide WfRq, Enqueue, Dequeue, FirstSignaled, Clear;
  }

  /** The running process changes only in restart(), and between the ticks the clock stands still. */
  lemma StepRegisters(st: State, s: Step)
    requires Wf(st) && Enabled(st, s) && !s.Tick?
    ensures var st' := Next(st, s);
            && st'.current == (if s == Restart then st.rq.next else st.current)
            && st'.nextTimeout == (if s.SetTimeout? then s.t else st.nextTimeout)
            && st'.ticked == st.ticked && st'.realtime == st.realtime
            && (s == Restart || s.SetTimeout? ==> st'.ipc == st.ipc && st'.rq == st.rq)
  {
    hide WfRq, SysCall, MiniSend, MiniNotify, SendSig, CauseSig, Enqueue, Dequeue;
    match s
    case Call(f, ep, addr, nb, ok) => CallTables(st, f, ep, addr, nb, ok);
    case Reply(d, addr) => TrapTables(st, SYSTEM, d, Any, addr, true);
    case Irq(p, bit) =>
      var v := st.ipc.procs[p].priv;
      TrapTables(st.(ipc := SetInts(st.ipc, v, st.ipc.privs[v].ints + {bit})), HARDWARE, p, Any, 0, true);
    case Alarm(p) => TrapTables(st, CLOCK, p, Any, 0, true);
    case SystemSignal(p, sig) => SignalTables(st, p, sig);
    case Signal(p, sig) => CauseTables(st, p, sig);
    case SetTimeout(_) =>
    case Restart =>
    case _ => RestTables(st, s);
  }

  // A quantum.

  /** The clock ticks among `steps`, if each is of one tick. */
  function Ticks(steps: seq<Step>): nat {
    if steps == [] then 0 else (if steps[0].Tick? then 1 else 0) + Ticks(steps[1..])
  }

  /** In step `k` the quantum of `p` is used up: the clock task is told, and it finds a process that
      is to be put behind the others. */
  ghost predicate UsedUp(trace: seq<State>, steps: seq<Step>, k: nat, p: Pid)
    requires IsRun(trace, steps)
  {
    && k < |steps| && steps[k].Tick? && trace[k].current == p && Due(trace[k], steps[k].ticks)
    && trace[k + 1].ticked == p && Spent(trace[k + 1])
  }

  /** A preemptible process that goes on running, whatever else happens, uses up its quantum after as
      many clock ticks as it has credit at most. */
  lemma {:induction false} QuantumEnds(trace: seq<State>, steps: seq<Step>, k: nat, p: Pid) returns (j: nat)
    requires IsRun(trace, steps) && k <= |steps| && CLOCK != p < |trace[0].ipc.procs|
    requires forall n :: k <= n <= |steps| ==> trace[n].current == p
    requires forall n :: k <= n < |steps| && steps[n].Tick? ==> steps[n].ticks == 1
    requires p < |trace[k].ipc.procs| && Preemptible(trace[k], p)
    requires 0 < trace[k].rq.slices[p].ticksLeft < 128 && Ticks(steps[k..]) >= trace[k].rq.slices[p].ticksLeft
    ensures k <= j && UsedUp(trace, steps, j, p)
    decreases |steps| - k
  {
    hide Next, Enabled, CreditAfter, Shares, Due, Renewed, Rights;
    if k == |steps| {
      assert false;
    }
    assert steps[k..][0] == steps[k] && steps[k..][1..] == steps[k + 1..];
    RightsKept(trace[k], steps[k]);
    RightsAt(trace[k].ipc, trace[k + 1].ipc, p);
    if steps[k].Tick? {
      TickCharges(trace[k], 1, p);
      OneTick(trace[k], p);
      if CreditAfter(trace[k], 1, p) <= 0 {
        return k;
      }
    } else {
      StepCredit(trace[k], steps[k], p);
      HasCredit(trace[k], steps[k], p);
    }
    j := QuantumEnds(trace, steps, k + 1, p);
  }

  lemma OneTick(st: State, p: Pid)
    requires Wf(st) && p == st.current && Preemptible(st, p) && 0 < st.rq.slices[p].ticksLeft < 128
    ensures CreditAfter(st, 1, p) < st.rq.slices[p].ticksLeft
    ensures CreditAfter(st, 1, p) <= 0 ==> Due(st, 1)
  {
  }

  lemma HasCredit(st: State, s: Step, x: Pid)
    requires Wf(st) && Enabled(st, s) && x < |st.ipc.procs| && x < |Next(st, s).rq.slices|
    requires st.rq.slices[x].ticksLeft > 0
    requires var t := st.rq.slices[x];
             Renewed(if s.SetNice? && s.p == x then t.(priority := s.q, maxPriority := s.q) else t,
                     Next(st, s).rq.slices[x])
    ensures Next(st, s).rq.slices[x].ticksLeft == st.rq.slices[x].ticksLeft
  {
    hide Next, Enabled;
  }
}
