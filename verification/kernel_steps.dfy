/** The kernel as a transition system: signals, the clock, the kernel-call handlers that touch
    the run-time flags, and runs made of all these steps. */
module KernelSteps {
  import opened Options
  import opened KernelState
  import opened KernelHistory

  // Signals.

  function SendSig(st: State, p: Pid, sig: nat): (st': State)
    requires Wf(st) && p < |st.ipc.procs|
    ensures Wf(st')
  {
    var v := st.ipc.procs[p].priv;
    MiniNotify(st.(ipc := SetSigs(st.ipc, v, st.ipc.privs[v].sigs + {sig})), SYSTEM, p)
  }

  function CauseSig(st: State, p: Pid, sig: nat): (st': State)
    requires Wf(st) && p < |st.ipc.procs|
    ensures Wf(st')
  {
    var rp := st.ipc.procs[p];
    if sig in rp.sigs then st
    else if rp.rts.signaled then st.(ipc := SetFlags(st.ipc, p, rp.rts, rp.sigs + {sig}))
    else
      var st1 := Block(st, p);
      var i1 := SetFlags(st.ipc, p, rp.rts.(signaled := true, sigPending := true), rp.sigs + {sig});
      SendSig(st1.(ipc := i1), PM, SIGKSIG)
  }

  /** The first process at or after slot `p` that has SIGNALED set, or the size of the table. */
  function FirstSignaled(i: Ipc, p: nat): (r: nat)
    requires p <= |i.procs|
    ensures p <= r <= |i.procs|
    ensures r < |i.procs| ==> i.procs[r].rts.signaled
    ensures forall x :: p <= x < r ==> !i.procs[x].rts.signaled
    decreases |i.procs| - p
  {
    if p == |i.procs| || i.procs[p].rts.signaled then p else FirstSignaled(i, p + 1)
  }

  function GetKsig(st: State): (st': State)
    requires Wf(st)
    ensures Wf(st')
  {
    var p := FirstSignaled(st.ipc, NR_TASKS);
    if p == |st.ipc.procs| then st
    else st.(ipc := SetFlags(st.ipc, p, st.ipc.procs[p].rts.(signaled := false), {}))
  }

  function EndKsig(st: State, p: Pid): (o: (State, Result))
    requires Wf(st) && p < |st.ipc.procs|
    ensures Wf(o.0)
  {
    var rp := st.ipc.procs[p];
    if !rp.rts.sigPending then (st, EINVAL)
    else if rp.rts.signaled then (st, OK)
    else (Wake(st, SetFlags(st.ipc, p, rp.rts.(sigPending := false), rp.sigs), p), OK)
  }

  // Handlers that schedule.

  function Stop(st: State, p: Pid): (st': State)
    requires Wf(st) && p < |st.ipc.procs|
    ensures Wf(st')
  {
    var rp := st.ipc.procs[p];
    Block(st, p).(ipc := SetFlags(st.ipc, p, rp.rts.(stopped := true), rp.sigs))
  }

  function Resume(st: State, p: Pid): (st': State)
    requires Wf(st) && p < |st.ipc.procs|
    ensures Wf(st')
  {
    var rp := st.ipc.procs[p];
    Wake(st, SetFlags(st.ipc, p, rp.rts.(stopped := false), rp.sigs), p)
  }

  function Nice(st: State, p: Pid, q: nat): (st': State)
    requires Wf(st) && p < |st.ipc.procs| && q <= MIN_USER_Q
    ensures Wf(st')
  {
    var r1 := Dequeue(st.ipc, st.rq, st.current, p);
    var r2 := r1.(slices := r1.slices[p := r1.slices[p].(maxPriority := q, priority := q)]);
    Wake(st.(rq := r2), st.ipc, p)
  }

  function Exit(st: State, p: Pid): (st': State)
    requires Wf(st) && p < |st.ipc.procs|
    ensures Wf(st')
  {
    Block(st, p).(ipc := Clear(st.ipc, p))
  }

  // The clock.

  /** p_ticks_left is a signed char. */
  function ToChar(x: int): int {
    (x + 128) % 256 - 128
  }

  function Charge(r: Rq, p: Pid, ticks: nat): (r': Rq)
    requires p < |r.slices|
  {
    r.(slices := r.slices[p := r.slices[p].(ticksLeft := ToChar(r.slices[p].ticksLeft - ticks))])
  }

  /** Who pays for the ticks: the running process, if it can be preempted, and the process to
      bill, if the running one is not billable. */
  function ChargeAll(i: Ipc, r: Rq, current: Pid, ticks: nat): (r': Rq)
    requires WfIpc(i) && WfRq(r, |i.procs|) && current < |i.procs|
    ensures WfRq(r', |i.procs|)
  {
    var pv := i.privs[i.procs[current].priv];
    var r1 := if pv.preemptible then Charge(r, current, ticks) else r;
    if pv.billable then r1 else Charge(r1, r1.bill, ticks)
  }

  /** clock_handler, `ticks` being the clock ticks since the last one. */
  function ClockTick(st: State, ticks: nat): (st': State)
    requires Wf(st)
    ensures Wf(st')
  {
    var st1 := st.(rq := ChargeAll(st.ipc, st.rq, st.current, ticks), realtime := st.realtime + ticks);
    if st1.nextTimeout <= st1.realtime || st1.rq.slices[st.current].ticksLeft <= 0 then
      MiniNotify(st1.(ticked := st.current), HARDWARE, CLOCK)
    else st1
  }

  predicate Spent(st: State)
    requires Wf(st)
  {
    && st.rq.slices[st.ticked].ticksLeft <= 0
    && st.ipc.privs[st.ipc.procs[st.ticked].priv].preemptible
  }

  /** The scheduling half of do_clocktick. */
  function DoClocktick(st: State): (st': State)
    requires Wf(st)
    ensures Wf(st')
  {
    if !Spent(st) then st
    else st.(rq := Enqueue(st.ipc, Dequeue(st.ipc, st.rq, st.current, st.ticked), st.ticked))
  }

  /** generic_handler: an interrupt for the driver `p`. */
  function Interrupt(st: State, p: Pid, bit: nat): (st': State)
    requires Wf(st) && p < |st.ipc.procs|
    ensures Wf(st')
  {
    var v := st.ipc.procs[p].priv;
    MiniNotify(st.(ipc := SetInts(st.ipc, v, st.ipc.privs[v].ints + {bit})), HARDWARE, p)
  }

  // Runs.

  datatype Step =
    | Call(f: Function, ep: Endpoint, addr: nat, nonBlocking: bool, pointerOk: bool)
    | Reply(d: Pid, addr: nat)
    | Irq(p: Pid, bit: nat)
    | Alarm(p: Pid)
    | SystemSignal(p: Pid, sig: nat)
    | Signal(p: Pid, sig: nat)
    | GetSignal
    | EndSignal(p: Pid)
    | TraceStop(p: Pid)
    | TraceResume(p: Pid)
    | SetNice(p: Pid, q: nat)
    | ProcessExit(p: Pid)
    | Tick(ticks: nat)
    | ClockWork
    | SetTimeout(t: int)
    | Restart
    | Write(p: Pid, addr: nat, m: Message)

  /** When a step can be taken.  A trap is made by the running process, which then has no flags.
      The conditions on single steps are the ones the sources leave to their callers: nobody sends
      to itself or to ANY; signals, tracing, nice and exit are for processes outside the kernel;
      SYSTEM replies to the requester it serves; the tick work and T_RESUME find their process
      runnable and not runnable.  Memory is written by its process and by kernel calls, but not
      the message of a blocked sender. */
  ghost predicate Enabled(st: State, s: Step)
    requires Wf(st)
  {
    var n := |st.ipc.procs|;
    match s
    case Call(f, ep, _, _, _) =>
      && Runnable(st.ipc, st.current)
      && (HasDestination(f) ==> ep != Any)
      && (f == SEND || f == SENDREC ==> ep != Nr(st.current))
    case Reply(d, _) =>
      && st.current == SYSTEM && Runnable(st.ipc, SYSTEM)
      && Serving(st.ipc.log).Some? && d == Serving(st.ipc.log).value.0 && d < n && d != SYSTEM
    case Irq(p, _) => p < n
    case Alarm(p) => p < n
    case SystemSignal(p, _) => p < n
    case Signal(p, _) => NR_TASKS <= p < n
    case GetSignal => true
    case EndSignal(p) => NR_TASKS <= p < n
    case TraceStop(p) => NR_TASKS <= p < n
    case TraceResume(p) => NR_TASKS <= p < n && !Runnable(st.ipc, p)
    case SetNice(p, q) => NR_TASKS <= p < n && q <= MIN_USER_Q
    case ProcessExit(p) => NR_TASKS <= p < n && !st.ipc.privs[st.ipc.procs[p].priv].sysProc
    case Tick(_) => true
    case ClockWork => Spent(st) ==> Runnable(st.ipc, st.ticked)
    case SetTimeout(_) => true
    case Restart => true
    case Write(p, addr, _) => p < n && (Sending(st.ipc, p) ==> addr != st.ipc.procs[p].messbuf)
  }

  ghost function Next(st: State, s: Step): (st': State)
    requires Wf(st) && Enabled(st, s)
    ensures Wf(st')
  {
    match s
    case Call(f, ep, addr, nb, ok) => SysCall(st, f, ep, addr, nb, ok).0
    case Reply(d, addr) => MiniSend(st, SYSTEM, d, addr, true).0
    case Irq(p, bit) => Interrupt(st, p, bit)
    case Alarm(p) => MiniNotify(st, CLOCK, p)
    case SystemSignal(p, sig) => SendSig(st, p, sig)
    case Signal(p, sig) => CauseSig(st, p, sig)
    case GetSignal => GetKsig(st)
    case EndSignal(p) => EndKsig(st, p).0
    case TraceStop(p) => Stop(st, p)
    case TraceResume(p) => Resume(st, p)
    case SetNice(p, q) => Nice(st, p, q)
    case ProcessExit(p) => Exit(st, p)
    case Tick(ticks) => ClockTick(st, ticks)
    case ClockWork => DoClocktick(st)
    case SetTimeout(t) => st.(nextTimeout := t)
    case Restart => st.(current := st.rq.next)
    case Write(p, addr, m) => st.(ipc := Store(st.ipc, p, addr, m))
  }

  /** `trace` is a run: each state follows from the one before by an enabled step. */
  ghost predicate IsRun(trace: seq<State>, steps: seq<Step>) {
    && |trace| == |steps| + 1
    && (forall k :: 0 <= k < |trace| ==> Wf(trace[k]))
    && (forall k :: 0 <= k < |steps| ==> Enabled(trace[k], steps[k]) && trace[k + 1] == Next(trace[k], steps[k]))
  }
}
