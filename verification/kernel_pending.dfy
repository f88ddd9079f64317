/** Where interrupts, signals and pending notifications go. */
module KernelPending {
  import opened Options
  import opened KernelState
  import opened KernelNotices
  import opened KernelSteps
  import opened KernelLaws

  /** Event `e` tells a process with the privileges `v` about `b`, in the name of `from`. */
  predicate HeardIn(i: Ipc, e: Event, from: Pid, v: nat, b: nat) {
    && e.Noticed? && e.from == Nr(from) && e.dst < |i.procs| && i.procs[e.dst].priv == v
    && e.m.body.Notification? && b in e.m.body.arg
  }

  ghost predicate Heard(i: Ipc, es: seq<Event>, from: Pid, v: nat, b: nat) {
    exists n :: 0 <= n < |es| && HeardIn(i, es[n], from, v, b)
  }

  /** A notification of the owner of `id` was delivered to a process with the privileges `v`. */
  ghost predicate Taken(i: Ipc, es: seq<Event>, v: nat, id: nat)
    requires id < |i.privs|
  {
    exists n ::
      && 0 <= n < |es| && es[n].Noticed? && es[n].from == i.privs[id].owner
      && es[n].dst < |i.procs| && i.procs[es[n].dst].priv == v
  }

  /** A process with the privileges `id` asked to notify one with the privileges `v`. */
  ghost predicate Asked(i: Ipc, es: seq<Event>, v: nat, id: nat) {
    exists n ::
      && 0 <= n < |es| && es[n].Notified? && es[n].src < |i.procs| && es[n].dst < |i.procs|
      && i.procs[es[n].src].priv == id && i.procs[es[n].dst].priv == v
  }

  /** Of the interrupts and signals for `v`, `b` is still there or in a notification that was delivered,
      not both; and none came from nowhere.  A pending bit goes only when its notification is
      delivered, and comes only when it is asked for. */
  ghost predicate MovesFrom(i: Ipc, ints: set<nat>, sigs: set<nat>, j: Ipc, v: nat, b: nat)
    requires WfIpc(i) && WfIpc(j) && v < |i.privs|
  {
    && Grows(i, j) && |j.privs| == |i.privs|
    && var es, x, y := New(i, j), i.privs[v], j.privs[v];
       && (b in ints <==> b in y.ints || Heard(i, es, HARDWARE, v, b))
       && (b in sigs <==> b in y.sigs || Heard(i, es, SYSTEM, v, b))
       && !(b in y.ints && Heard(i, es, HARDWARE, v, b)) && !(b in y.sigs && Heard(i, es, SYSTEM, v, b))
       && (b < |i.privs| ==>
             && (x.pending[b] && !y.pending[b] ==> Taken(i, es, v, b))
             && (!x.pending[b] && y.pending[b] ==> Asked(i, es, v, b)))
  }

  ghost predicate Moves(i: Ipc, j: Ipc, v: nat, b: nat)
    requires WfIpc(i) && WfIpc(j) && v < |i.privs|
  {
    MovesFrom(i, i.privs[v].ints, i.privs[v].sigs, j, v, b)
  }

  /** Nothing that is pending moved. */
  ghost predicate Rests(i: Ipc, j: Ipc, v: nat)
    requires WfIpc(i) && WfIpc(j) && v < |i.privs|
  {
    && Grows(i, j) && |j.privs| == |i.privs|
    && var es, x, y := New(i, j), i.privs[v], j.privs[v];
       && y.ints == x.ints && y.sigs == x.sigs && y.pending == x.pending
       && forall n :: 0 <= n < |es| ==> !es[n].Noticed?
  }

  lemma RestsMoves(i: Ipc, j: Ipc, v: nat, b: nat)
    requires WfIpc(i) && WfIpc(j) && v < |i.privs| && Rests(i, j, v)
    ensures Moves(i, j, v, b)
  {
  }

  lemma MovesSend(st: State, s: Pid, d: Pid, addr: nat, nb: bool, v: nat)
    requires Wf(st) && s < |st.ipc.procs| && d < |st.ipc.procs| && v < |st.ipc.privs|
    ensures Rests(st.ipc, MiniSend(st, s, d, addr, nb).0.ipc, v)
    ensures MiniSend(st, s, d, addr, nb).0.ipc.privs == st.ipc.privs
  {
    hide WfRq, Enqueue, Dequeue, WouldLock, Letter;
  }

  lemma MovesTaken(i: Ipc, r: Pid, id: nat, addr: nat, now: int, v: nat, b: nat)
    requires WfIpc(i) && r < |i.procs| && id < |i.privs| && v < |i.privs|
    ensures Moves(i, TakeNotice(i, r, id, addr, now), v, b)
  {
    var j := TakeNotice(i, r, id, addr, now);
    NewIs(i, j, [j.log[|i.log|]]);
    assert New(i, j)[0] == j.log[|i.log|];
  }

  lemma MovesReceive(st: State, r: Pid, src: Endpoint, addr: nat, nb: bool, v: nat, b: nat)
    requires Wf(st) && r < |st.ipc.procs| && v < |st.ipc.privs|
    ensures Moves(st.ipc, MiniReceive(st, r, src, addr, nb).0.ipc, v, b)
    ensures |MiniReceive(st, r, src, addr, nb).0.ipc.privs| == |st.ipc.privs|
    ensures forall x :: 0 <= x < |st.ipc.privs| ==>
              MiniReceive(st, r, src, addr, nb).0.ipc.privs[x].busy == st.ipc.privs[x].busy
  {
    hide WfRq, Enqueue, Dequeue, FindNotify, FirstFrom, Letter, Moves, TakeNotice;
    var i, x := st.ipc, st.ipc.procs[r].priv;
    var id, k := FindNotify(i, x, src, 0), FirstFrom(i.callers[r], src);
    RestsMoves(i, i, v, b);
    RestsMoves(i, ReceiveLater(i, r, src, addr), v, b);
    if id < |i.privs| {
      MovesTaken(i, r, id, addr, st.realtime, v, b);
      TakenBusy(i, r, id, addr, st.realtime);
    }
    if k < |i.callers[r]| {
      RestsMoves(i, TakeQueued(i, r, k, addr), v, b);
    }
  }

  lemma TakenBusy(i: Ipc, r: Pid, id: nat, addr: nat, now: int)
    requires WfIpc(i) && r < |i.procs| && id < |i.privs|
    ensures |TakeNotice(i, r, id, addr, now).privs| == |i.privs|
    ensures forall x :: 0 <= x < |i.privs| ==> TakeNotice(i, r, id, addr, now).privs[x].busy == i.privs[x].busy
  {
    hide BuildMess;
  }

  lemma MovesNow(i: Ipc, src: Pid, d: Pid, now: int, v: nat, b: nat)
    requires WfIpc(i) && d < |i.procs| && v < |i.privs|
    ensures Moves(i, NoticeNow(i, src, d, now), v, b) && |NoticeNow(i, src, d, now).privs| == |i.privs|
    ensures forall x :: 0 <= x < |i.privs| ==> NoticeNow(i, src, d, now).privs[x].busy == i.privs[x].busy
  {
    var j := NoticeNow(i, src, d, now);
    NewIs(i, j, [j.log[|i.log|], j.log[|i.log| + 1]]);
    assert New(i, j)[1] == j.log[|i.log| + 1];
  }

  lemma MovesLater(i: Ipc, src: Pid, d: Pid, v: nat, b: nat)
    requires WfIpc(i) && src < |i.procs| && d < |i.procs| && v < |i.privs|
    ensures Moves(i, NoticeLater(i, src, d), v, b) && |NoticeLater(i, src, d).privs| == |i.privs|
    ensures forall x :: 0 <= x < |i.privs| ==> NoticeLater(i, src, d).privs[x].busy == i.privs[x].busy
  {
    NewIs(i, NoticeLater(i, src, d), [Notified(src, d)]);
    assert New(i, NoticeLater(i, src, d))[0] == Notified(src, d);
  }

  lemma MovesNotify(st: State, src: Pid, d: Pid, v: nat, b: nat)
    requires Wf(st) && src < |st.ipc.procs| && d < |st.ipc.procs| && v < |st.ipc.privs|
    ensures Moves(st.ipc, MiniNotify(st, src, d).ipc, v, b)
    ensures |MiniNotify(st, src, d).ipc.privs| == |st.ipc.privs|
    ensures forall x :: 0 <= x < |st.ipc.privs| ==> MiniNotify(st, src, d).ipc.privs[x].busy == st.ipc.privs[x].busy
  {
    hide WfRq, Enqueue, Dequeue, NoticeNow, NoticeLater, Moves;
    MovesNow(st.ipc, src, d, st.realtime, v, b);
    MovesLater(st.ipc, src, d, v, b);
  }

  lemma SamePriv(i: Ipc, j: Ipc)
    requires Rights(j) == Rights(i) && WfIpc(i) && WfIpc(j)
    ensures |j.procs| == |i.procs| && |j.privs| == |i.privs|
    ensures forall p :: 0 <= p < |i.procs| ==> j.procs[p].priv == i.procs[p].priv
    ensures forall v :: 0 <= v < |i.privs| ==> j.privs[v].owner == i.privs[v].owner
  {
    assert forall p :: 0 <= p < |i.procs| ==> Rights(j).0[p] == j.procs[p].priv && Rights(i).0[p] == i.procs[p].priv;
    assert |Rights(j).0| == |j.procs| && |Rights(j).1| == |j.privs|;
    assert forall v :: 0 <= v < |i.privs| ==>
             Rights(j).1[v] == Fixed(j.privs[v]) && Rights(i).1[v] == Fixed(i.privs[v]);
  }

  /** What comes of events in which nothing is noticed, and more events. */
  lemma LaterEvents(i: Ipc, j: Ipc, a: seq<Event>, es: seq<Event>, v: nat, b: nat)
    requires WfIpc(i) && WfIpc(j) && v < |i.privs| && Rights(j) == Rights(i) && |j.privs| == |i.privs|
    requires forall n :: 0 <= n < |a| ==> !a[n].Noticed?
    ensures forall from :: Heard(i, a + es, from, v, b) <==> Heard(j, es, from, v, b)
    ensures b < |i.privs| ==> (Taken(i, a + es, v, b) <==> Taken(j, es, v, b))
    ensures b < |i.privs| && Asked(j, es, v, b) ==> Asked(i, a + es, v, b)
  {
    hide Rights;
    SamePriv(i, j);
    assert forall n :: 0 <= n < |es| ==> (a + es)[|a| + n] == es[n];
    assert forall n :: |a| <= n < |a + es| ==> (a + es)[n] == es[n - |a|];
  }

  /** Nothing moved first. */
  lemma MovesAfter(i: Ipc, j: Ipc, k: Ipc, v: nat, b: nat)
    requires WfIpc(i) && WfIpc(j) && WfIpc(k) && v < |i.privs| && Rests(i, j, v) && Rights(j) == Rights(i)
    requires |j.privs| == |i.privs| && Moves(j, k, v, b)
    ensures Moves(i, k, v, b)
  {
    hide Rights, Heard, Taken, Asked;
    NewBoth(i, j, k);
    LaterEvents(i, j, New(i, j), New(j, k), v, b);
  }

  lemma MovesSendRec(st: State, c: Pid, d: Pid, addr: nat, nb: bool, v: nat, b: nat)
    requires Wf(st) && c < |st.ipc.procs| && d < |st.ipc.procs| && v < |st.ipc.privs|
    ensures var j := SendRec(st, c, d, addr, nb).0.ipc;
            && |j.privs| == |st.ipc.privs| && Moves(st.ipc, j, v, b)
            && j.privs[v].busy == (st.ipc.privs[v].busy || v == st.ipc.procs[c].priv)
  {
    hide WfRq, MiniSend, MiniReceive, Moves, Rights;
    var i := st.ipc;
    var st1 := st.(ipc := SetBusy(i, c, true));
    var (m, r) := MiniSend(st1, c, d, addr, nb);
    var x := i.procs[c].priv;
    OneChanged(i, st1.ipc, c, i.procs[c], x, i.privs[x].(busy := true));
    RightsSend(st1, c, d, addr, nb);
    MovesSend(st1, c, d, addr, nb, v);
    SamePriv(i, m.ipc);
    RestsBusy(i, c, true, m.ipc, v);
    RestsMoves(i, m.ipc, v, b);
    if r == OK {
      MovesReceive(m, c, Nr(d), addr, nb, v, b);
      MovesAfter(i, m.ipc, MiniReceive(m, c, Nr(d), addr, nb).0.ipc, v, b);
    }
  }

  lemma RestsBusy(i: Ipc, c: Pid, busy: bool, k: Ipc, v: nat)
    requires WfIpc(i) && WfIpc(k) && c < |i.procs| && v < |i.privs|
    requires Rests(SetBusy(i, c, busy), k, v)
    ensures Rests(i, k, v)
  {
    assert New(i, k) == New(SetBusy(i, c, busy), k);
  }

  lemma MovesBusy(i: Ipc, c: Pid, busy: bool, k: Ipc, v: nat, b: nat)
    requires WfIpc(i) && WfIpc(k) && c < |i.procs| && v < |i.privs|
    requires Moves(SetBusy(i, c, busy), k, v, b)
    ensures Moves(i, k, v, b)
  {
    hide Rights, Moves;
    var x := i.procs[c].priv;
    OneChanged(i, SetBusy(i, c, busy), c, i.procs[c], x, i.privs[x].(busy := busy));
    NewIs(i, SetBusy(i, c, busy), []);
    MovesAfter(i, SetBusy(i, c, busy), k, v, b);
  }

  /** Whose notifications are held back: those of a process since its last call, if that sent a
      message to have an answer. */
  ghost predicate BusyAfter(st: State, s: Step, v: nat)
    requires Wf(st) && Enabled(st, s) && v < |st.ipc.privs|
  {
    if s.Call? && WantsMessage(s.f) && Allowed(st, s.f, s.ep, s.pointerOk) && v == st.ipc.procs[st.current].priv
    then s.f == SENDREC
    else st.ipc.privs[v].busy
  }

  lemma MovesCall(st: State, f: Function, ep: Endpoint, addr: nat, nb: bool, ok: bool, v: nat, b: nat)
    requires Wf(st) && Enabled(st, Call(f, ep, addr, nb, ok)) && v < |st.ipc.privs|
    ensures var j := SysCall(st, f, ep, addr, nb, ok).0.ipc;
            && |j.privs| == |st.ipc.privs| && Moves(st.ipc, j, v, b)
            && j.privs[v].busy == BusyAfter(st, Call(f, ep, addr, nb, ok), v)
  {
    hide WfRq, CheckCall, MiniSend, MiniReceive, MiniNotify, SendRec, Moves, Allowed, Rests;
    var i, c := st.ipc, st.current;
    Checked(st, f, ep, addr, nb, ok);
    RestsMoves(i, i, v, b) by {
      NothingRests(i, i, v);
    }
    if CheckCall(st, f, ep, ok) == OK {
      match f
      case SEND =>
        MovesSend(st, c, ep.pid, addr, nb, v);
        RestsMoves(i, MiniSend(st, c, ep.pid, addr, nb).0.ipc, v, b);
      case SENDREC => MovesSendRec(st, c, ep.pid, addr, nb, v, b);
      case RECEIVE =>
        var st0 := st.(ipc := SetBusy(i, c, false));
        MovesReceive(st0, c, ep, addr, nb, v, b);
        MovesBusy(i, c, false, MiniReceive(st0, c, ep, addr, nb).0.ipc, v, b);
      case NOTIFY => MovesNotify(st, c, ep.pid, v, b);
      case ECHO =>
        var j := SysCall(st, f, ep, addr, nb, ok).0.ipc;
        NothingRests(i, j, v);
        RestsMoves(i, j, v, b);
    }
  }

  lemma NothingRests(i: Ipc, j: Ipc, v: nat)
    requires WfIpc(i) && WfIpc(j) && v < |i.privs| && |j.procs| == |i.procs| && j.privs == i.privs && j.log == i.log
    ensures Rests(i, j, v)
  {
    NewIs(i, j, []);
  }

  /** What a step adds to the interrupts and signals that wait for `v`. */
  function NewInts(st: State, s: Step, v: nat): set<nat>
    requires Wf(st)
  {
    if s.Irq? && s.p < |st.ipc.procs| && st.ipc.procs[s.p].priv == v then {s.bit} else {}
  }

  function NewSigs(st: State, s: Step, v: nat): set<nat>
    requires Wf(st)
  {
    if s.SystemSignal? && s.p < |st.ipc.procs| && st.ipc.procs[s.p].priv == v then {s.sig}
    else if s.Signal? && s.p < |st.ipc.procs| && st.ipc.procs[PM].priv == v
            && s.sig !in st.ipc.procs[s.p].sigs && !st.ipc.procs[s.p].rts.signaled then {SIGKSIG}
    else {}
  }

  /** Of a step: what waits for `v`, and what the step adds to it, still waits or was delivered. */
  ghost predicate StepMoves(st: State, s: Step, v: nat, b: nat)
    requires Wf(st) && Enabled(st, s) && v < |st.ipc.privs|
  {
    var x, j := st.ipc.privs[v], Next(st, s).ipc;
    && MovesFrom(st.ipc, x.ints + NewInts(st, s, v), x.sigs + NewSigs(st, s, v), j, v, b)
    && j.privs[v].busy == BusyAfter(st, s, v)
  }

  /** `j` is `i` with something added to what waits for some process. */
  lemma MovesRaised(i: Ipc, j: Ipc, k: Ipc, v: nat, b: nat)
    requires WfIpc(i) && WfIpc(j) && WfIpc(k) && v < |i.privs| && Rights(j) == Rights(i) && j.log == i.log
    requires |j.privs| == |i.privs| && j.privs[v].pending == i.privs[v].pending && Moves(j, k, v, b)
    ensures MovesFrom(i, j.privs[v].ints, j.privs[v].sigs, k, v, b)
  {
    hide Rights, Heard, Taken, Asked;
    SamePriv(i, j);
    LaterEvents(i, j, [], New(j, k), v, b);
    assert New(i, k) == [] + New(j, k);
  }

  lemma MovesInterrupt(st: State, p: Pid, bit: nat, v: nat, b: nat)
    requires Wf(st) && p < |st.ipc.procs| && v < |st.ipc.privs|
    ensures var j := Interrupt(st, p, bit).ipc;
            && |j.privs| == |st.ipc.privs| && j.privs[v].busy == st.ipc.privs[v].busy
            && MovesFrom(st.ipc, st.ipc.privs[v].ints + NewInts(st, Irq(p, bit), v), st.ipc.privs[v].sigs, j, v, b)
  {
    hide WfRq, MiniNotify, Moves, MovesFrom, Rights;
    var i, x := st.ipc, st.ipc.procs[p].priv;
    var j := SetInts(i, x, i.privs[x].ints + {bit});
    OneChanged(i, j, p, i.procs[p], x, j.privs[x]);
    MovesNotify(st.(ipc := j), HARDWARE, p, v, b);
    MovesRaised(i, j, Interrupt(st, p, bit).ipc, v, b);
    assert v != x ==> i.privs[v].ints + {} == i.privs[v].ints;
  }

  lemma MovesSignal(st: State, p: Pid, sig: nat, v: nat, b: nat)
    requires Wf(st) && p < |st.ipc.procs| && v < |st.ipc.privs|
    ensures var j := SendSig(st, p, sig).ipc;
            && |j.privs| == |st.ipc.privs| && j.privs[v].busy == st.ipc.privs[v].busy
            && MovesFrom(st.ipc, st.ipc.privs[v].ints,
              st.ipc.privs[v].sigs + NewSigs(st, SystemSignal(p, sig), v), j, v, b)
  {
    hide WfRq, MiniNotify, Moves, MovesFrom, Rights;
    var i, x := st.ipc, st.ipc.procs[p].priv;
    var j := SetSigs(i, x, i.privs[x].sigs + {sig});
    OneChanged(i, j, p, i.procs[p], x, j.privs[x]);
    MovesNotify(st.(ipc := j), SYSTEM, p, v, b);
    MovesRaised(i, j, SendSig(st, p, sig).ipc, v, b);
    assert v != x ==> i.privs[v].sigs + {} == i.privs[v].sigs;
  }

  lemma MovesCause(st: State, p: Pid, sig: nat, v: nat, b: nat)
    requires Wf(st) && Enabled(st, Signal(p, sig)) && v < |st.ipc.privs|
    ensures StepMoves(st, Signal(p, sig), v, b)
  {
    hide WfRq, SendSig, Block, MovesFrom, Rights;
    var i, rp, k := st.ipc, st.ipc.procs[p], CauseSig(st, p, sig).ipc;
    if sig in rp.sigs || rp.rts.signaled {
      NothingRests(i, k, v);
      RestsMoves(i, k, v, b);
    } else {
      var j := SetFlags(i, p, rp.rts.(signaled := true, sigPending := true), rp.sigs + {sig});
      MovesSignal(Block(st, p).(ipc := j), PM, SIGKSIG, v, b);
      SameFrom(i, j, k, i.privs[v].ints, i.privs[v].sigs + NewSigs(st, Signal(p, sig), v), v, b);
    }
    assert i.privs[v].ints + {} == i.privs[v].ints && i.privs[v].sigs + {} == i.privs[v].sigs;
  }

  lemma SameFrom(i: Ipc, j: Ipc, k: Ipc, ints: set<nat>, sigs: set<nat>, v: nat, b: nat)
    requires WfIpc(i) && WfIpc(j) && WfIpc(k) && v < |i.privs| && j.privs == i.privs && j.log == i.log
    requires |j.procs| == |i.procs| && forall x :: 0 <= x < |i.procs| ==> j.procs[x].priv == i.procs[x].priv
    requires MovesFrom(j, ints, sigs, k, v, b)
    ensures MovesFrom(i, ints, sigs, k, v, b)
  {
    assert New(i, k) == New(j, k);
    assert forall e: Event, from: Pid :: HeardIn(j, e, from, v, b) == HeardIn(i, e, from, v, b);
  }

  lemma MovesTick(st: State, ticks: nat, v: nat, b: nat)
    requires Wf(st) && v < |st.ipc.privs|
    ensures var j := ClockTick(st, ticks).ipc;
            |j.privs| == |st.ipc.privs| && j.privs[v].busy == st.ipc.privs[v].busy && Moves(st.ipc, j, v, b)
  {
    hide WfRq, MiniNotify, Moves, ChargeAll;
    var st1 := st.(rq := ChargeAll(st.ipc, st.rq, st.current, ticks), realtime := st.realtime + ticks);
    NothingRests(st.ipc, st.ipc, v);
    RestsMoves(st.ipc, st.ipc, v, b);
    MovesNotify(st1.(ticked := st.current), HARDWARE, CLOCK, v, b);
  }

  lemma MovesRest(st: State, s: Step, v: nat)
    requires Wf(st) && Enabled(st, s) && v < |st.ipc.privs|
    requires !(s.Call? || s.Reply? || s.Irq? || s.Alarm? || s.SystemSignal? || s.Signal? || s.Tick?)
    ensures Next(st, s).ipc.privs == st.ipc.privs && Rests(st.ipc, Next(st, s).ipc, v)
  {
    hide WfRq, Enqueue, Dequeue, FirstSignaled, Letter;
    var i, j := st.ipc, Next(st, s).ipc;
    assert j.log == i.log + j.log[|i.log|..];
    NewIs(i, j, j.log[|i.log|..]);
  }

  /** No interrupt, no signal and no notification is lost or invented, in any step. */
  lemma NothingLost(st: State, s: Step, v: nat, b: nat)
    requires Wf(st) && Enabled(st, s) && v < |st.ipc.privs|
    ensures StepMoves(st, s, v, b)
  {
    hide WfRq, SysCall, MiniSend, MiniNotify, SendSig, CauseSig, Interrupt, ClockTick, Enqueue, Dequeue, Exit, Moves,
      MovesFrom, Rests;
    if s.Signal? {
      MovesCause(st, s.p, s.sig, v, b);
    } else if s.Irq? {
      MovesInterrupt(st, s.p, s.bit, v, b);
      assert st.ipc.privs[v].sigs + {} == st.ipc.privs[v].sigs;
    } else if s.SystemSignal? {
      MovesSignal(st, s.p, s.sig, v, b);
      assert st.ipc.privs[v].ints + {} == st.ipc.privs[v].ints;
    } else {
      PlainMoves(st, s, v, b);
      NothingAdded(st, s, v, b);
    }
  }

  lemma NothingAdded(st: State, s: Step, v: nat, b: nat)
    requires Wf(st) && Enabled(st, s) && v < |st.ipc.privs| && !s.Signal? && !s.Irq? && !s.SystemSignal?
    requires |Next(st, s).ipc.privs| == |st.ipc.privs| && Moves(st.ipc, Next(st, s).ipc, v, b)
    requires Next(st, s).ipc.privs[v].busy == BusyAfter(st, s, v)
    ensures StepMoves(st, s, v, b)
  {
    hide Next, Enabled, MovesFrom, BusyAfter;
    assert st.ipc.privs[v].ints + {} == st.ipc.privs[v].ints && st.ipc.privs[v].sigs + {} == st.ipc.privs[v].sigs;
  }

  lemma PlainMoves(st: State, s: Step, v: nat, b: nat)
    requires Wf(st) && Enabled(st, s) && v < |st.ipc.privs| && !s.Signal? && !s.Irq? && !s.SystemSignal?
    ensures Moves(st.ipc, Next(st, s).ipc, v, b) && |Next(st, s).ipc.privs| == |st.ipc.privs|
    ensures Next(st, s).ipc.privs[v].busy == BusyAfter(st, s, v)
  {
    hide WfRq, SysCall, MiniSend, MiniNotify, ClockTick, Enqueue, Dequeue, Exit, Moves, Rests;
    if s.Call? {
      MovesCall(st, s.f, s.ep, s.addr, s.nonBlocking, s.pointerOk, v, b);
    } else if s.Reply? {
      MovesSend(st, SYSTEM, s.d, s.addr, true, v);
      RestsMoves(st.ipc, MiniSend(st, SYSTEM, s.d, s.addr, true).0.ipc, v, b);
    } else if s.Alarm? {
      MovesNotify(st, CLOCK, s.p, v, b);
    } else if s.Tick? {
      MovesTick(st, s.ticks, v, b);
    } else {
      MovesRest(st, s, v);
      RestsMoves(st.ipc, Next(st, s).ipc, v, b);
    }
  }

  /** A receive from anybody brings a pending notification, if there is one, before any message. */
  lemma NotificationsFirst(st: State, addr: nat, nb: bool, ok: bool, id: nat)
    requires Wf(st) && SpareBitsClear(st.ipc) && Enabled(st, Call(RECEIVE, Any, addr, nb, ok))
    requires Allowed(st, RECEIVE, Any, ok)
    requires id < |st.ipc.privs| && st.ipc.privs[st.ipc.procs[st.current].priv].pending[id]
    ensures var es := New(st.ipc, SysCall(st, RECEIVE, Any, addr, nb, ok).0.ipc);
            |es| == 1 && es[0].Noticed? && es[0].dst == st.current
  {
    hide WfRq, CheckCall, MiniReceive, Allowed;
    Checked(st, RECEIVE, Any, addr, nb, ok);
    var i := SetBusy(st.ipc, st.current, false);
    BitStays(st.ipc, i, id, st.ipc.procs[st.current].priv);
    NoticeTaken(st.(ipc := i), st.current, addr, nb, id);
    NewIs(st.ipc, MiniReceive(st.(ipc := i), st.current, Any, addr, nb).0.ipc,
          New(i, MiniReceive(st.(ipc := i), st.current, Any, addr, nb).0.ipc));
  }

  lemma BitStays(i: Ipc, j: Ipc, id: nat, v: nat)
    requires WfIpc(i) && WfIpc(j) && |j.privs| == |i.privs| && SpareBitsClear(i) && id < |i.privs| && v < |i.privs|
    requires forall x :: 0 <= x < |i.privs| ==> j.privs[x].pending == i.privs[x].pending
    requires i.privs[v].pending[id]
    ensures SpareBitsClear(j) && id < MapBits(|j.privs|) && Bit(j, v, id)
  {
    forall x, b | 0 <= x < |j.privs| && |j.privs| <= b < MapBits(|j.privs|)
      ensures !Bit(j, x, b)
    {
      assert !Bit(i, x, b);
    }
    IdFits(j);
  }

  lemma NoticeTaken(st: State, r: Pid, addr: nat, nb: bool, id: nat)
    requires Wf(st) && r < |st.ipc.procs| && SpareBitsClear(st.ipc) && !Sending(st.ipc, r)
    requires id < MapBits(|st.ipc.privs|) && Bit(st.ipc, st.ipc.procs[r].priv, id)
    requires !st.ipc.privs[st.ipc.procs[r].priv].busy
    ensures var j := MiniReceive(st, r, Any, addr, nb).0.ipc;
            && Grows(st.ipc, j) && j.log == st.ipc.log + New(st.ipc, j)
            && |New(st.ipc, j)| == 1 && New(st.ipc, j)[0].Noticed? && New(st.ipc, j)[0].dst == r
  {
    hide WfRq, Enqueue, Dequeue, FindNotify;
    var i, v := st.ipc, st.ipc.procs[r].priv;
    if FindNotify(i, v, Any, 0) == MapBits(|i.privs|) {
      AnyFindsAll(i, v, 0);
    }
    var n := FindNotify(i, v, Any, 0);
    var j := TakeNotice(i, r, n, addr, st.realtime);
    NewIs(i, j, [j.log[|i.log|]]);
  }

  // Every run.

  /** In a step of a run that tells a process about `b`, in the name of `from`. */
  ghost predicate HeardAt(trace: seq<State>, n: nat, from: Pid, v: nat, b: nat)
    requires n + 1 < |trace|
  {
    Heard(trace[n].ipc, New(trace[n].ipc, trace[n + 1].ipc), from, v, b)
  }

  lemma {:induction false} SamePrivs(trace: seq<State>, steps: seq<Step>, k: nat)
    requires IsRun(trace, steps) && k < |trace|
    ensures Rights(trace[k].ipc) == Rights(trace[0].ipc) && |trace[k].ipc.privs| == |trace[0].ipc.privs|
  {
    hide Next, Enabled, Wf, Rights;
    if k > 0 {
      SamePrivs(trace, steps, k - 1);
      RightsKept(trace[k - 1], steps[k - 1]);
      PrivsSame(trace[k - 1], trace[k]);
    }
  }

  lemma PrivsSame(st: State, st': State)
    requires Wf(st) && Wf(st') && Rights(st'.ipc) == Rights(st.ipc)
    ensures |st'.ipc.privs| == |st.ipc.privs|
  {
    hide WfRq, Rights;
    SamePriv(st.ipc, st'.ipc);
  }

  /** What waits for `v`, and what a step adds to that, in the name of HARDWARE or SYSTEM. */
  function Waiting(st: State, from: Pid, v: nat): set<nat>
    requires v < |st.ipc.privs|
  {
    if from == HARDWARE then st.ipc.privs[v].ints else st.ipc.privs[v].sigs
  }

  function Added(st: State, s: Step, from: Pid, v: nat): set<nat>
    requires Wf(st)
  {
    if from == HARDWARE then NewInts(st, s, v) else NewSigs(st, s, v)
  }

  /** Every interrupt of every run is still waiting for its driver, or a process with the privileges
      of the driver has been told about it in a notification of HARDWARE; and so are signals, by
      SYSTEM. */
  lemma {:induction false} RaisedKept(trace: seq<State>, steps: seq<Step>, j: nat, k: nat, from: Pid, v: nat, b: nat)
    returns (n: nat)
    requires IsRun(trace, steps) && j < k < |trace| && v < |trace[0].ipc.privs|
    requires |trace[k].ipc.privs| == |trace[0].ipc.privs|
    requires (from == HARDWARE || from == SYSTEM) && b in Added(trace[j], steps[j], from, v)
    ensures b in Waiting(trace[k], from, v) || (j <= n < k && HeardAt(trace, n, from, v, b))
    decreases k
  {
    hide Next, Wf, Heard, Taken, Asked, BusyAfter, NewInts, NewSigs;
    n := k - 1;
    SamePrivs(trace, steps, n);
    NothingLost(trace[n], steps[n], v, b);
    if j < n && b !in Waiting(trace[n], from, v) {
      n := RaisedKept(trace, steps, j, n, from, v, b);
    }
  }
}
