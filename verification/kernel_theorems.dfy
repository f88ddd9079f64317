/** What holds in every run of the kernel. */
module KernelTheorems {
  import opened Options
  import opened KernelState
  import opened KernelGraph
  import opened KernelNotices
  import opened KernelHistory
  import opened KernelReady
  import opened KernelSteps
  import opened KernelInvariant
  import opened KernelRuns

  // Runs.

  lemma StepKeeps(st: State, s: Step)
    requires Inv(st) && Enabled(st, s)
    ensures Inv(Next(st, s))
  {
    hide IpcInv, CallInv, RqInv, SignalsBlock;
    match s
    case Call(f, ep, addr, nb, ok) => SysCallKeeps(st, f, ep, addr, nb, ok);
    case Reply(d, addr) => ReplyKeeps(st, d, addr);
    case Irq(p, bit) => InterruptKeeps(st, p, bit);
    case Alarm(p) => NotifyKeeps(st, CLOCK, p);
    case SystemSignal(p, sig) => SendSigKeeps(st, p, sig);
    case Signal(p, sig) => CauseSigKeeps(st, p, sig);
    case GetSignal => GetKsigKeeps(st);
    case EndSignal(p) => EndKsigKeeps(st, p);
    case TraceStop(p) => StopKeeps(st, p);
    case TraceResume(p) => ResumeKeeps(st, p);
    case SetNice(p, q) => NiceKeeps(st, p, q);
    case ProcessExit(p) => ExitKeeps(st, p);
    case Tick(ticks) => TickKeeps(st, ticks);
    case ClockWork => ClockWorkKeeps(st);
    case SetTimeout(_) =>
    case Restart =>
    case Write(p, addr, m) => StoreKeeps(st, p, addr, m);
  }

  lemma {:induction false} RunKeeps(trace: seq<State>, steps: seq<Step>, k: nat)
    requires IsRun(trace, steps) && Inv(trace[0]) && k < |trace|
    ensures Inv(trace[k])
  {
    hide IpcInv, CallInv, RqInv, SignalsBlock;
    if k > 0 {
      RunKeeps(trace, steps, k - 1);
      StepKeeps(trace[k - 1], steps[k - 1]);
    }
  }

  // The start of a run.

  /** The boot image before anything has happened. */
  ghost predicate Fresh(i: Ipc) {
    && WfIpc(i) && Config(i) && i.log == [] && Runnable(i, IDLE)
    && (forall p :: IsPid(i, p) ==>
          && !i.procs[p].rts.sending && !i.procs[p].rts.receiving
          && !i.procs[p].rts.signaled && i.procs[p].sigs == {})
    && (forall p :: IsPid(i, p) ==> i.callers[p] == [])
    && (forall v :: 0 <= v < |i.privs| ==> i.privs[v].sigs == {} && i.privs[v].ints == {})
    && (forall v, id :: 0 <= v < |i.privs| && 0 <= id < MapBits(|i.privs|) ==> !Bit(i, v, id))
  }

  /** main() announces the processes of the boot image one by one. */
  function EnqueueAll(i: Ipc, r: Rq, ps: seq<Pid>): (r': Rq)
    requires WfIpc(i) && WfRq(r, |i.procs|)
    requires forall k :: 0 <= k < |ps| ==> ps[k] < |i.procs|
    ensures WfRq(r', |i.procs|)
    decreases |ps|
  {
    if ps == [] then r else EnqueueAll(i, Enqueue(i, r, ps[0]), ps[1..])
  }

  /** The processes in `ps` are still to be put on their queues. */
  ghost predicate ReadyBut(i: Ipc, r: Rq, ps: seq<Pid>)
    requires WfIpc(i) && WfRq(r, |i.procs|)
  {
    && (forall q, k :: 0 <= q < NR_SCHED_QUEUES && 0 <= k < |r.ready[q]| ==>
          var p := r.ready[q][k]; p !in ps && r.slices[p].priority == q && Runnable(i, p))
    && (forall q :: 0 <= q < NR_SCHED_QUEUES ==> NoDup(r.ready[q]))
    && (forall p :: IsPid(i, p) && p !in ps && Runnable(i, p) ==> p in r.ready[r.slices[p].priority])
  }

  lemma InsertMembers(r: Rq, e: Rq, p: Pid)
    requires |r.ready| == NR_SCHED_QUEUES && p < |e.slices| && 0 <= e.slices[p].priority < NR_SCHED_QUEUES
    requires var q := e.slices[p].priority;
             e.ready == r.ready[q := [p] + r.ready[q]] || e.ready == r.ready[q := r.ready[q] + [p]]
    requires forall q :: 0 <= q < NR_SCHED_QUEUES ==> NoDup(r.ready[q]) && p !in r.ready[q]
    ensures forall q, x :: 0 <= q < NR_SCHED_QUEUES ==>
                             (x in e.ready[q] <==> x in r.ready[q] || (q == e.slices[p].priority && x == p))
    ensures forall q :: 0 <= q < NR_SCHED_QUEUES ==> NoDup(e.ready[q])
  {
    forall q | 0 <= q < NR_SCHED_QUEUES
      ensures NoDup(e.ready[q])
    {
      NoDupPush(r.ready[q], p);
    }
  }

  lemma EnqueueOne(i: Ipc, r: Rq, ps: seq<Pid>)
    requires WfIpc(i) && WfRq(r, |i.procs|) && ps != [] && ps[0] < |i.procs| && Runnable(i, ps[0])
    requires ReadyBut(i, r, ps) && NoDup(ps)
    ensures ReadyBut(i, Enqueue(i, r, ps[0]), ps[1..])
    ensures NextIsTop(Enqueue(i, r, ps[0]))
  {
    hide Enqueue, NextIsTop, WfIpc;
    var p := ps[0];
    var e := Enqueue(i, r, p);
    EnqueueShape(i, r, p);
    assert p !in ps[1..] by {
      assert forall k :: 0 < k < |ps| ==> ps[0] != ps[k];
    }
    assert forall q :: 0 <= q < NR_SCHED_QUEUES ==> p !in r.ready[q];
    InsertMembers(r, e, p);
    assert forall x :: x in ps <==> x == p || x in ps[1..];
    forall q, k | 0 <= q < NR_SCHED_QUEUES && 0 <= k < |e.ready[q]|
      ensures var x := e.ready[q][k]; x !in ps[1..] && e.slices[x].priority == q && Runnable(i, x)
    {
      assert e.ready[q][k] in e.ready[q];
    }
  }

  lemma {:induction false} EnqueueAllReady(i: Ipc, r: Rq, ps: seq<Pid>)
    requires WfIpc(i) && WfRq(r, |i.procs|) && Runnable(i, IDLE)
    requires forall k :: 0 <= k < |ps| ==> ps[k] < |i.procs| && Runnable(i, ps[k])
    requires ReadyBut(i, r, ps) && NoDup(ps) && Ranked(r) && NextIsTop(r)
    ensures RqInv(i, EnqueueAll(i, r, ps))
    decreases |ps|
  {
    if ps != [] {
      EnqueueOne(i, r, ps);
      RankedEnqueue(i, r, ps[0]);
      EnqueueAllReady(i, Enqueue(i, r, ps[0]), ps[1..]);
    }
  }

  /** Booting establishes the invariant: every process of the image that may run is announced once,
      and IDLE is the first to be billed. */
  lemma BootKeeps(st: State, r: Rq, ps: seq<Pid>)
    requires Wf(st) && Fresh(st.ipc)
    requires WfRq(r, |st.ipc.procs|) && Ranked(r) && (forall q :: 0 <= q < NR_SCHED_QUEUES ==> r.ready[q] == [])
    requires NoDup(ps) && (forall k :: 0 <= k < |ps| ==> ps[k] < |st.ipc.procs|)
    requires forall p :: IsPid(st.ipc, p) ==> (p in ps <==> Runnable(st.ipc, p))
    requires st.rq == EnqueueAll(st.ipc, r, ps).(bill := IDLE)
    ensures Inv(st)
  {
    hide ReadyExact, NextIsTop, Ranked, EnqueueAll, ReadyBut, HistoryInv, NoticeInv, QueuesExact, WalksEnd,
      ReplyExpected, NoneMissed, CallInv, SignalsBlock;
    GraphFresh(st.ipc);
    IdleMapsFresh(st.ipc);
    NothingReady(st.ipc, r, ps);
    EnqueueAllReady(st.ipc, r, ps);
    RqBill(st.ipc, EnqueueAll(st.ipc, r, ps), IDLE);
  }

  lemma NothingReady(i: Ipc, r: Rq, ps: seq<Pid>)
    requires WfIpc(i) && WfRq(r, |i.procs|) && (forall q :: 0 <= q < NR_SCHED_QUEUES ==> r.ready[q] == [])
    requires Runnable(i, IDLE) && forall k :: 0 <= k < |ps| ==> ps[k] < |i.procs|
    requires forall p :: IsPid(i, p) ==> (p in ps <==> Runnable(i, p))
    ensures ReadyBut(i, r, ps) && NextIsTop(r)
    ensures forall k :: 0 <= k < |ps| ==> Runnable(i, ps[k])
  {
    assert FirstBusy(r.ready, 0) == NR_SCHED_QUEUES;
    forall k | 0 <= k < |ps|
      ensures Runnable(i, ps[k])
    {
      assert IsPid(i, ps[k]) && ps[k] in ps;
    }
  }

  lemma RqBill(i: Ipc, r: Rq, b: Pid)
    requires WfIpc(i) && WfRq(r, |i.procs|) && RqInv(i, r) && b < |i.procs|
    ensures RqInv(i, r.(bill := b))
  {
  }

  lemma GraphFresh(i: Ipc)
    requires Fresh(i)
    ensures GraphInv(i)
  {
    forall p | IsPid(i, p)
      ensures WalkEnds(i, p)
    {
      assert Stops(i, p, 0);
    }
  }

  lemma IdleMapsFresh(i: Ipc)
    requires Fresh(i)
    ensures NoticeInv(i, -1, 0) && HistoryInv(i) && CallInv(i, -1) && SignalsBlock(i)
  {
    assert IsPid(i, SYSTEM);
  }

  // The kernel tasks and PM alone, as kernel/table.c sets them up, are such a boot image.

  function BootProc(p: Pid, rts: Rts): Proc {
    Proc(rts, p, 0, Nobody, 0, {}, map[])
  }

  function BootPriv(p: Pid, traps: set<Function>): Priv {
    Priv(Nr(p), false, p == IDLE || p == PM, p == IDLE, true, traps, {0, 1, 2, 3, 4}, seq(16, _ => false), {}, {})
  }

  const NO_FLAGS := Rts(false, false, false, false, false, false, false, false)

  const SMALL_IMAGE: Ipc :=
    Ipc([BootProc(IDLE, NO_FLAGS), BootProc(CLOCK, NO_FLAGS), BootProc(SYSTEM, NO_FLAGS),
         BootProc(HARDWARE, NO_FLAGS.(noMap := true)), BootProc(PM, NO_FLAGS)],
        [BootPriv(IDLE, {}), BootPriv(CLOCK, {RECEIVE}), BootPriv(SYSTEM, {RECEIVE}), BootPriv(HARDWARE, {}),
         BootPriv(PM, {SEND, RECEIVE, SENDREC, NOTIFY, ECHO})],
        [[], [], [], [], []], [])

  const SMALL_QUEUES: Rq :=
    Rq([Slice(IDLE_Q, IDLE_Q, 8, 8), Slice(0, 0, 64, 64), Slice(0, 0, 64, 64), Slice(0, 0, 64, 64),
        Slice(3, 3, 32, 32)],
       seq(NR_SCHED_QUEUES, _ => []), IDLE, IDLE, None)

  lemma SmallImageBoots() returns (st: State)
    ensures Fresh(SMALL_IMAGE) && WfRq(SMALL_QUEUES, |SMALL_IMAGE.procs|) && Ranked(SMALL_QUEUES)
    ensures st == State(SMALL_IMAGE, EnqueueAll(SMALL_IMAGE, SMALL_QUEUES, [IDLE, CLOCK, SYSTEM, PM]).(bill := IDLE),
                        IDLE, IDLE, 0, 0)
    ensures Wf(st) && Inv(st) && st.rq.slices == SMALL_QUEUES.slices
  {
    hide EnqueueAll, Inv;
    SmallImageFresh();
    SlicesKept(SMALL_IMAGE, SMALL_QUEUES, [IDLE, CLOCK, SYSTEM, PM]);
    var ps := [IDLE, CLOCK, SYSTEM, PM];
    assert forall p :: IsPid(SMALL_IMAGE, p) ==> (p in ps <==> Runnable(SMALL_IMAGE, p));
    st := State(SMALL_IMAGE, EnqueueAll(SMALL_IMAGE, SMALL_QUEUES, ps).(bill := IDLE), IDLE, IDLE, 0, 0);
    BootKeeps(st, SMALL_QUEUES, ps);
  }

  lemma {:induction false} SlicesKept(i: Ipc, r: Rq, ps: seq<Pid>)
    requires WfIpc(i) && WfRq(r, |i.procs|) && forall k :: 0 <= k < |ps| ==> ps[k] < |i.procs|
    requires forall p :: 0 <= p < |r.slices| ==> r.slices[p].ticksLeft > 0
    ensures EnqueueAll(i, r, ps).slices == r.slices
    decreases |ps|
  {
    hide WfIpc;
    if ps != [] {
      SlicesKept(i, Enqueue(i, r, ps[0]), ps[1..]);
    }
  }

  lemma SmallImageFresh()
    ensures Fresh(SMALL_IMAGE)
  {
    assert forall v :: 0 <= v < 5 ==> SMALL_IMAGE.privs[v].owner == Nr(v) && SMALL_IMAGE.procs[v].priv == v;
  }

  // Safety.

  /** In every state of every run: nobody waits in a circle of senders, so the deadlock walk comes
      to an end; no rendezvous was missed; and the process to run next can run, at the highest
      priority there is, IDLE only if nobody else can. */
  lemma RunIsSafe(trace: seq<State>, steps: seq<Step>, k: nat)
    requires IsRun(trace, steps) && Inv(trace[0]) && k < |trace|
    ensures Acyclic(trace[k].ipc)
    ensures forall p :: IsPid(trace[k].ipc, p) ==> WalkEnds(trace[k].ipc, p)
    ensures forall s :: IsPid(trace[k].ipc, s) && Sending(trace[k].ipc, s) ==>
            !WaitsFor(trace[k].ipc, trace[k].ipc.procs[s].sendto, s)
    ensures Runnable(trace[k].ipc, trace[k].rq.next)
    ensures forall p :: IsPid(trace[k].ipc, p) && Runnable(trace[k].ipc, p) ==>
              trace[k].rq.slices[trace[k].rq.next].priority <= trace[k].rq.slices[p].priority
    ensures trace[k].rq.ready[IDLE_Q] == [IDLE]
  {
    RunKeeps(trace, steps, k);
    var st := trace[k];
    EndsMeansAcyclic(st.ipc);
    NextRuns(st.ipc, st.rq);
    IdleAlone(st.ipc, st.rq);
  }

  ghost predicate Extends(i: Ipc, j: Ipc) {
    |i.log| <= |j.log| && j.log[..|i.log|] == i.log
  }

  lemma ExtendsFurther(i: Ipc, j: Ipc, k: Ipc)
    requires Extends(i, j) && Extends(j, k)
    ensures Extends(i, k)
  {
    assert k.log[..|i.log|] == k.log[..|j.log|][..|i.log|];
  }

  lemma TrapsExtend(st: State, c: Pid, d: Pid, src: Endpoint, addr: nat, nb: bool)
    requires Wf(st) && c < |st.ipc.procs| && d < |st.ipc.procs|
    ensures Extends(st.ipc, MiniSend(st, c, d, addr, nb).0.ipc)
    ensures Extends(st.ipc, MiniReceive(st, c, src, addr, nb).0.ipc)
    ensures Extends(st.ipc, MiniNotify(st, c, d).ipc)
  {
    hide WfIpc, WfRq;
  }

  lemma CallExtends(st: State, f: Function, ep: Endpoint, addr: nat, nb: bool, ok: bool)
    requires Wf(st) && (HasDestination(f) ==> ep != Any)
    ensures Extends(st.ipc, SysCall(st, f, ep, addr, nb, ok).0.ipc)
  {
    hide WfIpc, WfRq, CheckCall, MiniSend, MiniReceive, MiniNotify;
    var c := st.current;
    var d := if ep.Nr? && ep.pid < |st.ipc.procs| then ep.pid else c;
    var st0, st1 := st.(ipc := SetBusy(st.ipc, c, false)), st.(ipc := SetBusy(st.ipc, c, true));
    TrapsExtend(st, c, d, ep, addr, nb);
    TrapsExtend(st0, c, d, ep, addr, nb);
    TrapsExtend(st1, c, d, ep, addr, nb);
    var o := MiniSend(st1, c, d, addr, nb).0;
    assert |o.ipc.procs| == |st.ipc.procs| by {
      SameTable(st1, c, d, addr, nb);
    }
    TrapsExtend(o, c, d, ep, addr, nb);
    ExtendsFurther(st1.ipc, o.ipc, MiniReceive(o, c, ep, addr, nb).0.ipc);
  }

  lemma SameTable(st: State, c: Pid, d: Pid, addr: nat, nb: bool)
    requires Wf(st) && c < |st.ipc.procs| && d < |st.ipc.procs|
    ensures |MiniSend(st, c, d, addr, nb).0.ipc.procs| == |st.ipc.procs|
  {
    hide WfIpc, WfRq;
  }

  /** The history of a step extends the history before it. */
  lemma HistoryGrows(st: State, s: Step)
    requires Wf(st) && Enabled(st, s)
    ensures Extends(st.ipc, Next(st, s).ipc)
  {
    hide WfRq, MiniSend, MiniReceive, MiniNotify, SysCall, Enqueue, Dequeue, SendSig, CauseSig, Interrupt, ClockTick,
      ChargeAll, CheckCall, Extends;
    match s
    case Call(f, ep, addr, nb, ok) => CallExtends(st, f, ep, addr, nb, ok);
    case Reply(d, addr) => TrapsExtend(st, SYSTEM, d, Any, addr, true);
    case Irq(p, bit) => InterruptExtends(st, p, bit);
    case Alarm(p) => TrapsExtend(st, CLOCK, p, Any, 0, true);
    case SystemSignal(p, sig) => SendSigExtends(st, p, sig);
    case Signal(p, sig) => CauseSigExtends(st, p, sig);
    case Tick(ticks) => TickExtends(st, ticks);
    case _ => OthersExtend(st, s);
  }

  /** These steps write nothing into the history, but for the exit of a process. */
  lemma OthersExtend(st: State, s: Step)
    requires Wf(st) && Enabled(st, s)
    requires !(s.Call? || s.Reply? || s.Irq? || s.Alarm? || s.SystemSignal? || s.Signal? || s.Tick?)
    ensures Extends(st.ipc, Next(st, s).ipc)
  {
    hide WfRq, WfIpc, Enqueue, Dequeue;
  }

  lemma InterruptExtends(st: State, p: Pid, bit: nat)
    requires Wf(st) && p < |st.ipc.procs|
    ensures Extends(st.ipc, Interrupt(st, p, bit).ipc)
  {
    hide WfRq, MiniNotify;
    var v := st.ipc.procs[p].priv;
    TrapsExtend(st.(ipc := SetInts(st.ipc, v, st.ipc.privs[v].ints + {bit})), HARDWARE, p, Any, 0, true);
  }

  lemma CauseSigExtends(st: State, p: Pid, sig: nat)
    requires Wf(st) && p < |st.ipc.procs|
    ensures Extends(st.ipc, CauseSig(st, p, sig).ipc)
  {
    hide WfRq, SendSig, Dequeue;
    var rp := st.ipc.procs[p];
    var i1 := SetFlags(st.ipc, p, rp.rts.(signaled := true, sigPending := true), rp.sigs + {sig});
    SendSigExtends(Block(st, p).(ipc := i1), PM, SIGKSIG);
  }

  lemma TickExtends(st: State, ticks: nat)
    requires Wf(st)
    ensures Extends(st.ipc, ClockTick(st, ticks).ipc)
  {
    hide WfRq, MiniNotify;
    var st1 := st.(rq := ChargeAll(st.ipc, st.rq, st.current, ticks), realtime := st.realtime + ticks);
    TrapsExtend(st1.(ticked := st.current), HARDWARE, CLOCK, Any, 0, true);
  }

  lemma SendSigExtends(st: State, p: Pid, sig: nat)
    requires Wf(st) && p < |st.ipc.procs|
    ensures Extends(st.ipc, SendSig(st, p, sig).ipc)
  {
    hide WfRq, MiniNotify;
    var v := st.ipc.procs[p].priv;
    TrapsExtend(st.(ipc := SetSigs(st.ipc, v, st.ipc.privs[v].sigs + {sig})), SYSTEM, p, Any, 0, true);
  }

  /** Every message that was ever accepted from `s` was delivered, or dropped because `s` exited,
      once, in order and unchanged, except for the one `s` is blocked on, which is still as it was
      and whose sender is on its destination's queue. */
  lemma MessagesConserved(trace: seq<State>, steps: seq<Step>, k: nat, s: Pid)
    requires IsRun(trace, steps) && Inv(trace[0]) && k < |trace| && IsPid(trace[k].ipc, s)
    ensures AcceptedFrom(trace[k].ipc.log, s) == TakenFrom(trace[k].ipc.log, s) + Unsent(trace[k].ipc, s)
    ensures forall d :: IsPid(trace[k].ipc, d) ==>
              (s in trace[k].ipc.callers[d] <==> Sending(trace[k].ipc, s) && trace[k].ipc.procs[s].sendto == d)
  {
    RunKeeps(trace, steps, k);
  }

  /** A receive that is served from the queue takes the acceptable message that was accepted first. */
  lemma OldestFirst(st: State, r: Pid, src: Endpoint, addr: nat, x: Pid)
    requires Inv(st) && r < |st.ipc.procs| && x < |st.ipc.procs|
    requires Sending(st.ipc, x) && st.ipc.procs[x].sendto == r && (src == Any || src == Nr(x))
    ensures var k := FirstFrom(st.ipc.callers[r], src);
            && k < |st.ipc.callers[r]|
            && LastAccept(st.ipc.log, st.ipc.callers[r][k]) <= LastAccept(st.ipc.log, x)
  {
    assert IsPid(st.ipc, r) && IsPid(st.ipc, x) && x in st.ipc.callers[r];
    var j :| 0 <= j < |st.ipc.callers[r]| && st.ipc.callers[r][j] == x;
    var k := FirstFrom(st.ipc.callers[r], src);
    assert k <= j;
  }

  /** Every notification ever requested is pending or was delivered later, and a set of signals or
      interrupts waiting for a process always has its notification pending. */
  lemma NotificationsKept(trace: seq<State>, steps: seq<Step>, k: nat, e: nat)
    requires IsRun(trace, steps) && Inv(trace[0]) && k < |trace| && e < |trace[k].ipc.log|
    ensures var i := trace[k].ipc;
            i.log[e].Notified? ==>
              && i.log[e].src < |i.procs| && i.log[e].dst < |i.procs|
              && (Bit(i, i.procs[i.log[e].dst].priv, i.procs[i.log[e].src].priv) ||
                  exists n :: e < n < |i.log| && Answers(i, i.log[n], i.log[e].src, i.log[e].dst))
    ensures forall v :: 0 <= v < |trace[k].ipc.privs| && trace[k].ipc.privs[v].sigs != {} ==>
              Bit(trace[k].ipc, v, trace[k].ipc.procs[SYSTEM].priv)
    ensures forall v :: 0 <= v < |trace[k].ipc.privs| && trace[k].ipc.privs[v].ints != {} ==>
              Bit(trace[k].ipc, v, trace[k].ipc.procs[HARDWARE].priv)
  {
    RunKeeps(trace, steps, k);
    var i := trace[k].ipc;
    if i.log[e].Notified? {
      assert Honoured(i, e);
    }
  }

  // Kernel calls.

  /** No message of anybody but SYSTEM and no notification can release `r`; SYSTEM's reply can. */
  ghost predicate OnlyReplyReleases(st: State, r: Pid, addr: nat)
    requires Wf(st)
  {
    && r < |st.ipc.procs|
    && (forall x :: IsPid(st.ipc, x) && x != SYSTEM ==> !WaitsFor(st.ipc, r, x))
    && st.ipc.privs[st.ipc.procs[r].priv].busy
    && var o := MiniSend(st, SYSTEM, r, addr, true);
       o.1 == OK && |o.0.ipc.procs| == |st.ipc.procs| && !o.0.ipc.procs[r].rts.receiving
  }

  /** While SYSTEM serves a blocking request, the requester waits for SYSTEM alone: nobody else's
      message and no notification can release it, and SYSTEM's reply succeeds and does. */
  lemma ReplySucceeds(trace: seq<State>, steps: seq<Step>, k: nat, r: Pid, addr: nat)
    requires IsRun(trace, steps) && Inv(trace[0]) && k < |trace|
    requires Serving(trace[k].ipc.log) == Some((r, true))
    ensures OnlyReplyReleases(trace[k], r, addr)
  {
    RunKeeps(trace, steps, k);
    RequesterWaits(trace[k], r, addr);
  }

  lemma RequesterWaits(st: State, r: Pid, addr: nat)
    requires Inv(st) && Serving(st.ipc.log) == Some((r, true))
    ensures OnlyReplyReleases(st, r, addr)
  {
    hide QueuesExact, WalksEnd, ReplyExpected, NoneMissed, Config, ArgsPending, SpareBitsClear, IdleMapsClear,
      Conserved, InOrder, NotifiesKept, ReadyExact, NextIsTop, Ranked;
  }

  /** The same request made with NON_BLOCKING cannot be answered: its maker did not wait. */
  lemma NonBlockingNotAnswered(st: State, addr: nat, ok: bool, addr': nat)
    requires Wf(st) && QueuesExact(st.ipc)
    requires st.current != SYSTEM && Runnable(st.ipc, st.current) && WaitsFor(st.ipc, SYSTEM, st.current)
    requires CheckCall(st, SENDREC, Nr(SYSTEM), ok) == OK
    ensures var o := SysCall(st, SENDREC, Nr(SYSTEM), addr, true, ok);
            && Serving(o.0.ipc.log) == Some((st.current, false))
            && MiniSend(o.0, SYSTEM, st.current, addr', true).1 == ENOTREADY
  {
    hide Enqueue, CheckCall, FindNotify, WfRq, Serving;
    var c := st.current;
    var st1 := st.(ipc := SetBusy(st.ipc, c, true));
    assert IsPid(st.ipc, c) && IsPid(st.ipc, SYSTEM);
    assert SYSTEM !in st.ipc.callers[c];
    NotSendingNoLock(st1.ipc, c, SYSTEM);
    ServingAfterSend(st1.ipc, c, SYSTEM, addr, false);
    var o := Wake(st1, SendNow(st1.ipc, c, SYSTEM, addr, false), SYSTEM);
    assert o.ipc.callers == st.ipc.callers && !o.ipc.procs[c].rts.receiving;
    assert MiniReceive(o, c, Nr(SYSTEM), addr, true) == (o, ENOTREADY);
    NotSendingNoLock(o.ipc, SYSTEM, c);
  }

  lemma NotSendingNoLock(i: Ipc, s: Pid, d: Pid)
    requires WfIpc(i) && d < |i.procs| && !Sending(i, d)
    ensures !WouldLock(i, s, d)
  {
  }

  // Where the ready queues depend on the callers.

  /** The tick work puts prev_ptr back whatever its flags: it keeps the ready queues exact if and
      only if that process can run. */
  lemma ClockWorkExactIff(st: State)
    requires Inv(st) && Spent(st)
    ensures ReadyExact(DoClocktick(st).ipc, DoClocktick(st).rq, -1) <==> Runnable(st.ipc, st.ticked)
  {
    hide IpcInv, CallInv;
    var p := st.ticked;
    if Runnable(st.ipc, p) {
      ClockWorkKeeps(st);
    } else {
      var r := Dequeue(st.ipc, st.rq, st.current, p);
      var e := Enqueue(st.ipc, r, p);
      EnqueueShape(st.ipc, r, p);
      var s := e.ready[e.slices[p].priority];
      assert p in s;
      var k :| 0 <= k < |s| && s[k] == p;
    }
  }

  /** PM used up its quantum and was stopped before the clock task got to work: it is put on a
      queue although it is stopped. */
  lemma ClockWorkFails() returns (st: State)
    ensures Inv(st) && st.ticked == PM && st.ipc.procs[PM].rts.stopped
    ensures !ReadyExact(DoClocktick(st).ipc, DoClocktick(st).rq, -1)
  {
    hide Inv, Stop, ReadyExact, EnqueueAll, Wf;
    var st0 := SmallImageBoots();
    StopKeeps(st0, PM);
    st := StoppedLate(st0, Stop(st0, PM));
    ClockWorkExactIff(st);
  }

  lemma StoppedLate(st0: State, st1: State) returns (st: State)
    requires Inv(st0) && st0.ipc == SMALL_IMAGE && st1 == Stop(st0, PM) && Inv(st1)
    ensures Inv(st) && Spent(st) && st.ticked == PM && st.ipc.procs[PM].rts.stopped && !Runnable(st.ipc, st.ticked)
  {
    hide IpcInv, CallInv, SignalsBlock, EnqueueAll, ReadyExact;
    var s := st1.rq.slices[PM].(ticksLeft := 0);
    ReadyOtherSlice(st1.ipc, st1.rq, PM, s);
    st := st1.(rq := st1.rq.(slices := st1.rq.slices[PM := s]), ticked := PM);
  }

  /** A process that used up its quantum goes behind everybody of its priority. */
  lemma SpentGoesLast(st: State)
    requires Inv(st) && Spent(st) && Runnable(st.ipc, st.ticked)
    ensures var e := DoClocktick(st).rq; var s := e.ready[e.slices[st.ticked].priority];
            && s != [] && s[|s| - 1] == st.ticked
            && (forall x :: x in s && x != st.ticked ==> x in st.rq.ready[e.slices[st.ticked].priority])
            && e.slices[st.ticked].ticksLeft == st.rq.slices[st.ticked].quantum
  {
    hide IpcInv, CallInv, Enqueue, Dequeue, ReadyExact, NextIsTop, Ranked, SignalsBlock;
    var r := Dequeue(st.ipc, st.rq, st.current, st.ticked);
    DequeueKeepsOthers(st.ipc, st.rq, st.current, st.ticked);
    EnqueueSpent(st.ipc, r, st.ticked);
  }

  lemma DequeueKeepsOthers(i: Ipc, r: Rq, current: Pid, p: Pid)
    requires WfIpc(i) && WfRq(r, |i.procs|) && p < |i.procs|
    ensures var e := Dequeue(i, r, current, p);
            && e.slices == r.slices && forall q, x :: 0 <= q < NR_SCHED_QUEUES && x in e.ready[q] ==> x in r.ready[q]
  {
    hide WfIpc;
    var q0 := r.slices[p].priority;
    forall x | x in Without(r.ready[q0], p)
      ensures x in r.ready[q0]
    {
    }
  }

  lemma EnqueueSpent(i: Ipc, r: Rq, p: Pid)
    requires WfIpc(i) && WfRq(r, |i.procs|) && p < |i.procs| && r.slices[p].ticksLeft <= 0
    ensures var e := Enqueue(i, r, p); var q := e.slices[p].priority;
            && e.ready == r.ready[q := r.ready[q] + [p]] && e.slices[p].ticksLeft == r.slices[p].quantum
  {
  }
}
