/** What a step of the kernel does as its processes see it: whose memory gets which message, who
    blocks, and which calls are let through. */
module KernelLaws {
  import opened Options
  import opened KernelState
  import opened KernelSteps

  // Messages that reach a process.

  /** The message that event `e` puts into the memory of `p`. */
  function Arrives(e: Event, p: Pid): seq<Message> {
    match e
    case Delivered(_, d, m, _) => if d == p then [m] else []
    case Noticed(_, d, m) => if d == p then [m] else []
    case _ => []
  }

  /** What the events in `es` say was copied to `p`. */
  function Got(es: seq<Event>, p: Pid): seq<Message> {
    if es == [] then [] else Arrives(es[0], p) + Got(es[1..], p)
  }

  lemma {:induction false} GotBoth(a: seq<Event>, b: seq<Event>, p: Pid)
    ensures Got(a + b, p) == Got(a, p) + Got(b, p)
    decreases |a|
  {
    if a == [] {
      assert a + b == b;
    } else {
      assert (a + b)[1..] == a[1..] + b;
      GotBoth(a[1..], b, p);
    }
  }

  lemma GotOne(e: Event, p: Pid)
    ensures Got([e], p) == Arrives(e, p)
  {
    assert [e][1..] == [];
  }

  lemma GotTwo(e: Event, f: Event, p: Pid)
    ensures Got([e, f], p) == Arrives(e, p) + Arrives(f, p)
  {
    GotOne(e, p);
    GotOne(f, p);
    GotBoth([e], [f], p);
    assert [e] + [f] == [e, f];
  }

  /** The events of a step. */
  function New(i: Ipc, j: Ipc): seq<Event> {
    if |i.log| <= |j.log| then j.log[|i.log|..] else []
  }

  lemma NewIs(i: Ipc, j: Ipc, es: seq<Event>)
    requires j.log == i.log + es
    ensures New(i, j) == es
  {
  }

  ghost predicate Grows(i: Ipc, j: Ipc) {
    |j.procs| == |i.procs| && |i.log| <= |j.log| && j.log[..|i.log|] == i.log
  }

  lemma NewBoth(i: Ipc, j: Ipc, k: Ipc)
    requires Grows(i, j) && Grows(j, k)
    ensures Grows(i, k) && New(i, k) == New(i, j) + New(j, k)
  {
    assert k.log == j.log + New(j, k) && j.log == i.log + New(i, j);
    assert k.log == i.log + (New(i, j) + New(j, k));
  }

  // What a process sees of a step.

  /** Where a message is wanted, and from whom. */
  datatype Request = Request(at: nat, src: Endpoint)

  /** What a process that is blocked in a receive asked for. */
  function Open(i: Ipc, p: Pid): Request
    requires p < |i.procs|
  {
    Request(i.procs[p].messbuf, i.procs[p].getfrom)
  }

  predicate Accepts(src: Endpoint, m: Message) {
    src == Any || src == m.source
  }

  /** Of what has arrived at most one message is in `p`'s memory, as `w` wants it, and then `p`, which
      was to receive, does not any more; otherwise it does if and only if `receives`.  Nothing else in
      its memory has changed. */
  ghost predicate Sees(i: Ipc, j: Ipc, p: Pid, w: Request, receives: bool)
    requires p < |i.procs|
  {
    && Grows(i, j)
    && (j.procs[p].rts.receiving ==> Open(j, p) == w)
    && var got, x, y := Got(New(i, j), p), i.procs[p], j.procs[p];
       if got == [] then y.mem == x.mem && y.rts.receiving == receives
       else receives && |got| == 1 && Accepts(w.src, got[0]) && y.mem == x.mem[w.at := got[0]] && !y.rts.receiving
  }

  /** Nothing arrived at `p`. */
  ghost predicate Left(i: Ipc, j: Ipc, p: Pid)
    requires p < |i.procs|
  {
    Grows(i, j) && Got(New(i, j), p) == [] && j.procs[p].mem == i.procs[p].mem
  }

  lemma SeesSendNow(i: Ipc, s: Pid, d: Pid, addr: nat, waits: bool, p: Pid)
    requires WfIpc(i) && s < |i.procs| && d < |i.procs| && p < |i.procs| && WaitsFor(i, d, s)
    ensures Sees(i, SendNow(i, s, d, addr, waits), p, Open(i, p), i.procs[p].rts.receiving)
    ensures p != d ==> Left(i, SendNow(i, s, d, addr, waits), p)
  {
    hide WfIpc, Got;
    var m := Letter(i, s, addr);
    var e, f := Accepted(s, d, m), Delivered(s, d, m, waits);
    NewIs(i, SendNow(i, s, d, addr, waits), [e, f]);
    GotTwo(e, f, p);
  }

  lemma SeesSendLater(i: Ipc, s: Pid, d: Pid, addr: nat, p: Pid)
    requires WfIpc(i) && s < |i.procs| && d < |i.procs| && p < |i.procs| && !i.procs[s].rts.receiving
    ensures Sees(i, SendLater(i, s, d, addr), p, Open(i, p), i.procs[p].rts.receiving)
    ensures Left(i, SendLater(i, s, d, addr), p)
  {
    hide WfIpc, Got;
    var e := Accepted(s, d, Letter(i, s, addr));
    NewIs(i, SendLater(i, s, d, addr), [e]);
    GotOne(e, p);
  }

  lemma SeesTakeQueued(i: Ipc, r: Pid, k: nat, addr: nat, src: Endpoint, p: Pid)
    requires WfIpc(i) && r < |i.procs| && k < |i.callers[r]| && p < |i.procs| && !i.procs[r].rts.receiving
    requires src == Any || src == Nr(i.callers[r][k])
    ensures p != r ==>
              Sees(i, TakeQueued(i, r, k, addr), p, Open(i, p), i.procs[p].rts.receiving) &&
              Left(i, TakeQueued(i, r, k, addr), p)
    ensures p == r ==>
              Sees(i, TakeQueued(i, r, k, addr), p, Request(addr, src), true) &&
              Got(New(i, TakeQueued(i, r, k, addr)), p) != []
  {
    hide Got;
    var s := i.callers[r][k];
    var e := Delivered(s, r, Letter(i, s, i.procs[s].messbuf), true);
    NewIs(i, TakeQueued(i, r, k, addr), [e]);
    GotOne(e, p);
  }

  lemma SeesTakeNotice(i: Ipc, r: Pid, id: nat, addr: nat, now: int, src: Endpoint, p: Pid)
    requires WfIpc(i) && r < |i.procs| && id < |i.privs| && p < |i.procs| && !i.procs[r].rts.receiving
    requires src == Any || src == i.privs[id].owner
    ensures p != r ==>
              Sees(i, TakeNotice(i, r, id, addr, now), p, Open(i, p), i.procs[p].rts.receiving) &&
              Left(i, TakeNotice(i, r, id, addr, now), p)
    ensures p == r ==>
              Sees(i, TakeNotice(i, r, id, addr, now), p, Request(addr, src), true) &&
              Got(New(i, TakeNotice(i, r, id, addr, now)), p) != []
  {
    hide Got, ClearArg;
    var j := TakeNotice(i, r, id, addr, now);
    var e := j.log[|i.log|];
    NewIs(i, j, [e]);
    GotOne(e, p);
  }

  lemma SeesReceiveLater(i: Ipc, r: Pid, src: Endpoint, addr: nat, p: Pid)
    requires WfIpc(i) && r < |i.procs| && p < |i.procs|
    ensures var w := if p == r then Request(addr, src) else Open(i, p);
            Sees(i, ReceiveLater(i, r, src, addr), p, w, p == r || i.procs[p].rts.receiving)
    ensures Left(i, ReceiveLater(i, r, src, addr), p)
  {
    NewIs(i, ReceiveLater(i, r, src, addr), []);
  }

  lemma SeesNoticeNow(i: Ipc, src: Pid, d: Pid, now: int, p: Pid)
    requires WfIpc(i) && d < |i.procs| && p < |i.procs| && WaitsFor(i, d, src)
    ensures Sees(i, NoticeNow(i, src, d, now), p, Open(i, p), i.procs[p].rts.receiving)
    ensures p != d ==> Left(i, NoticeNow(i, src, d, now), p)
  {
    hide WfIpc, Got, ClearArg;
    var j := NoticeNow(i, src, d, now);
    var e, f := Notified(src, d), j.log[|i.log| + 1];
    NewIs(i, j, [e, f]);
    GotTwo(e, f, p);
  }

  lemma SeesNoticeLater(i: Ipc, src: Pid, d: Pid, p: Pid)
    requires WfIpc(i) && src < |i.procs| && d < |i.procs| && p < |i.procs|
    ensures Sees(i, NoticeLater(i, src, d), p, Open(i, p), i.procs[p].rts.receiving)
    ensures Left(i, NoticeLater(i, src, d), p)
  {
    hide Got;
    var e := Notified(src, d);
    NewIs(i, NoticeLater(i, src, d), [e]);
    GotOne(e, p);
  }

  /** `j` has nothing new for `p`. */
  lemma SeesNothing(i: Ipc, j: Ipc, p: Pid)
    requires p < |i.procs| && |j.procs| == |i.procs| && j.log == i.log
    requires j.procs[p].mem == i.procs[p].mem && j.procs[p].rts.receiving == i.procs[p].rts.receiving
    requires Open(j, p) == Open(i, p)
    ensures Sees(i, j, p, Open(i, p), i.procs[p].rts.receiving) && Left(i, j, p)
  {
    NewIs(i, j, []);
  }

  lemma SeesSend(st: State, s: Pid, d: Pid, addr: nat, nb: bool, p: Pid)
    requires Wf(st) && s < |st.ipc.procs| && d < |st.ipc.procs| && p < |st.ipc.procs|
    requires nb || !st.ipc.procs[s].rts.receiving
    ensures Sees(st.ipc, MiniSend(st, s, d, addr, nb).0.ipc, p, Open(st.ipc, p), st.ipc.procs[p].rts.receiving)
    ensures p != d ==> Left(st.ipc, MiniSend(st, s, d, addr, nb).0.ipc, p)
  {
    hide WfRq, WfIpc, Sees, Left, Dequeue, Enqueue, WouldLock, SendNow, SendLater;
    SeesNothing(st.ipc, st.ipc, p);
    if WaitsFor(st.ipc, d, s) {
      SeesSendNow(st.ipc, s, d, addr, !nb, p);
    }
    if !nb {
      SeesSendLater(st.ipc, s, d, addr, p);
    }
  }

  /** A receive by `r`, which is not blocked in one. */
  lemma SeesReceive(st: State, r: Pid, src: Endpoint, addr: nat, nb: bool, p: Pid)
    requires Wf(st) && r < |st.ipc.procs| && p < |st.ipc.procs| && !st.ipc.procs[r].rts.receiving
    ensures var o := MiniReceive(st, r, src, addr, nb);
            if p == r then Sees(st.ipc, o.0.ipc, p, Request(addr, src), o.1 == OK)
            else
              Sees(st.ipc, o.0.ipc, p, Open(st.ipc, p), st.ipc.procs[p].rts.receiving) &&
              Left(st.ipc, o.0.ipc, p)
  {
    hide WfRq, Left, Dequeue, Enqueue, FindNotify, TakeQueued, TakeNotice, ReceiveLater, FirstFrom, Got, Grows;
    var v := st.ipc.procs[r].priv;
    var id := FindNotify(st.ipc, v, src, 0);
    var k := FirstFrom(st.ipc.callers[r], src);
    SeesNothing(st.ipc, st.ipc, p);
    if id < |st.ipc.privs| {
      SeesTakeNotice(st.ipc, r, id, addr, st.realtime, src, p);
    }
    if k < |st.ipc.callers[r]| {
      SeesTakeQueued(st.ipc, r, k, addr, src, p);
    }
    SeesReceiveLater(st.ipc, r, src, addr, p);
  }

  lemma SeesNotify(st: State, src: Pid, d: Pid, p: Pid)
    requires Wf(st) && src < |st.ipc.procs| && d < |st.ipc.procs| && p < |st.ipc.procs|
    ensures Sees(st.ipc, MiniNotify(st, src, d).ipc, p, Open(st.ipc, p), st.ipc.procs[p].rts.receiving)
    ensures !st.ipc.procs[p].rts.receiving ==> Left(st.ipc, MiniNotify(st, src, d).ipc, p)
  {
    hide WfRq, WfIpc, Sees, Left, Dequeue, Enqueue, NoticeNow, NoticeLater;
    if WaitsFor(st.ipc, d, src) {
      SeesNoticeNow(st.ipc, src, d, st.realtime, p);
    }
    SeesNoticeLater(st.ipc, src, d, p);
  }

  // Calls.

  predicate SendsMessage(f: Function) {
    f == SEND || f == SENDREC
  }

  predicate WantsMessage(f: Function) {
    f == RECEIVE || f == SENDREC
  }

  /** What sys_call lets through: a trap in the caller's mask, no plain sending to kernel tasks, a
      process that there is, a message that can be read, and for a call that sends a destination
      that is alive and that the caller may send to. */
  predicate Allowed(st: State, f: Function, ep: Endpoint, pointerOk: bool)
    requires Wf(st)
  {
    var pv := st.ipc.privs[st.ipc.procs[st.current].priv];
    && f in pv.traps
    && (ep.Nr? && ep.pid < NR_TASKS ==> WantsMessage(f))
    && (f == ECHO || ep == Any || (ep.Nr? && ep.pid < |st.ipc.procs|))
    && (pointerOk || f == NOTIFY)
    && (f != RECEIVE && f != ECHO && ep.Nr? && ep.pid < |st.ipc.procs| ==>
          st.ipc.procs[ep.pid].priv in pv.ipcTo && st.ipc.procs[ep.pid].rts != SLOT_FREE)
  }

  predicate Refusal(r: Result) {
    r == ECALLDENIED || r == EBADSRCDST || r == EFAULT || r == EDEADDST
  }

  /** A call is refused if and only if it is not allowed, for the reason that the error names, and
      then nothing changes. */
  lemma RefusedIff(st: State, f: Function, ep: Endpoint, addr: nat, nb: bool, ok: bool)
    requires Wf(st) && Enabled(st, Call(f, ep, addr, nb, ok))
    ensures var o := SysCall(st, f, ep, addr, nb, ok);
            var pv := st.ipc.privs[st.ipc.procs[st.current].priv];
            && (Refusal(o.1) <==> !Allowed(st, f, ep, ok))
            && (Refusal(o.1) ==> o.0 == st)
            && (o.1 == EBADSRCDST ==> f != ECHO && ep != Any && !(ep.Nr? && ep.pid < |st.ipc.procs|))
            && (o.1 == EFAULT ==> f != NOTIFY && !ok)
            && (o.1 == EDEADDST ==> ep.Nr? && ep.pid < |st.ipc.procs| && st.ipc.procs[ep.pid].rts == SLOT_FREE)
            && (o.1 == ECALLDENIED ==>
                  || f !in pv.traps || (ep.Nr? && ep.pid < NR_TASKS && !WantsMessage(f))
                  || (ep.Nr? && ep.pid < |st.ipc.procs| && st.ipc.procs[ep.pid].priv !in pv.ipcTo))
  {
    hide Wf, MiniSend, MiniReceive, MiniNotify, SetBusy, Store, SysCall;
    Checked(st, f, ep, addr, nb, ok);
    if CheckCall(st, f, ep, ok) == OK {
      CarriedOut(st, f, ep, addr, nb, ok);
    }
  }

  lemma Checked(st: State, f: Function, ep: Endpoint, addr: nat, nb: bool, ok: bool)
    requires Wf(st) && Enabled(st, Call(f, ep, addr, nb, ok))
    ensures var r := CheckCall(st, f, ep, ok);
            var pv := st.ipc.privs[st.ipc.procs[st.current].priv];
            && (r == OK <==> Allowed(st, f, ep, ok)) && (r == OK || Refusal(r))
            && (r != OK ==> SysCall(st, f, ep, addr, nb, ok) == (st, r))
            && (r == EBADSRCDST ==> f != ECHO && ep != Any && !(ep.Nr? && ep.pid < |st.ipc.procs|))
            && (r == EFAULT ==> f != NOTIFY && !ok)
            && (r == EDEADDST ==> ep.Nr? && ep.pid < |st.ipc.procs| && st.ipc.procs[ep.pid].rts == SLOT_FREE)
            && (r == ECALLDENIED ==>
                  || f !in pv.traps || (ep.Nr? && ep.pid < NR_TASKS && !WantsMessage(f))
                  || (ep.Nr? && ep.pid < |st.ipc.procs| && st.ipc.procs[ep.pid].priv !in pv.ipcTo))
  {
    hide WfRq, MiniSend, MiniReceive, MiniNotify, SetBusy, Store;
  }

  lemma CarriedOut(st: State, f: Function, ep: Endpoint, addr: nat, nb: bool, ok: bool)
    requires Wf(st) && Enabled(st, Call(f, ep, addr, nb, ok)) && CheckCall(st, f, ep, ok) == OK
    ensures !Refusal(SysCall(st, f, ep, addr, nb, ok).1)
  {
    hide WfRq, CheckCall, MiniSend, MiniReceive, MiniNotify;
    var c := st.current;
    var st0, st1 := st.(ipc := SetBusy(st.ipc, c, false)), st.(ipc := SetBusy(st.ipc, c, true));
    NoRefusal(st0, c, c, ep, addr, nb);
    if SendsMessage(f) {
      NoRefusal(st, c, ep.pid, ep, addr, nb);
      NoRefusal(st1, c, ep.pid, ep, addr, nb);
      SameProcs(st1, c, ep.pid, addr, nb);
      NoRefusal(MiniSend(st1, c, ep.pid, addr, nb).0, c, ep.pid, ep, addr, nb);
    }
  }

  lemma NoRefusal(st: State, c: Pid, d: Pid, src: Endpoint, addr: nat, nb: bool)
    requires Wf(st) && c < |st.ipc.procs| && d < |st.ipc.procs|
    ensures !Refusal(MiniSend(st, c, d, addr, nb).1) && !Refusal(MiniReceive(st, c, src, addr, nb).1)
  {
    hide WfRq, WouldLock, FindNotify, Enqueue, Dequeue;
  }

  lemma SameProcs(st: State, c: Pid, d: Pid, addr: nat, nb: bool)
    requires Wf(st) && c < |st.ipc.procs| && d < |st.ipc.procs|
    ensures |MiniSend(st, c, d, addr, nb).0.ipc.procs| == |st.ipc.procs|
  {
    hide WfRq, WouldLock, Enqueue, Dequeue;
  }

  // Every step.

  /** What the receive that `p` is blocked in asked for, or its call does. */
  function Wants(st: State, s: Step, p: Pid): Request
    requires p < |st.ipc.procs|
  {
    if s.Call? && p == st.current then Request(s.addr, s.ep) else Open(st.ipc, p)
  }

  ghost predicate Succeeds(st: State, s: Step)
    requires Wf(st) && Enabled(st, s)
  {
    s.Call? && SysCall(st, s.f, s.ep, s.addr, s.nonBlocking, s.pointerOk).1 == OK
  }

  /** Is `p` to receive: blocked in a receive, or in a call for one that succeeds? */
  ghost predicate Receives(st: State, s: Step, p: Pid)
    requires Wf(st) && Enabled(st, s) && p < |st.ipc.procs|
  {
    if s.Call? && p == st.current then WantsMessage(s.f) && Succeeds(st, s)
    else st.ipc.procs[p].rts.receiving && s != ProcessExit(p)
  }

  /** What `p` has in its memory after a step that brought it nothing: it may write itself, and an
      echo gives it back its own message, with itself as the source. */
  ghost function OwnMemory(st: State, s: Step, p: Pid): map<nat, Message>
    requires Wf(st) && Enabled(st, s) && p < |st.ipc.procs|
  {
    var mem := st.ipc.procs[p].mem;
    match s
    case Write(q, addr, m) => if q == p then mem[addr := m] else mem
    case Call(f, _, addr, _, _) =>
      if f == ECHO && p == st.current && Succeeds(st, s) then
        mem[addr := (if addr in mem then mem[addr] else BLANK).(source := Nr(p))]
      else mem
    case _ => mem
  }

  /** The memory of `p` after a step is what the history says that was copied to it: at most one
      message, in the buffer that `p` gave to its receive, from a source that this accepts, and then
      the receive ends; and nothing else.  Who receives after the step remembers what it wants. */
  ghost predicate Agrees(st: State, s: Step, p: Pid)
    requires Wf(st) && Enabled(st, s) && p < |st.ipc.procs|
  {
    var st' := Next(st, s);
    && Grows(st.ipc, st'.ipc)
    && (st'.ipc.procs[p].rts.receiving ==> Open(st'.ipc, p) == Wants(st, s, p))
    && var got, x, y := Got(New(st.ipc, st'.ipc), p), st.ipc.procs[p], st'.ipc.procs[p];
       if got == [] then y.mem == OwnMemory(st, s, p) && (y.rts.receiving <==> Receives(st, s, p))
       else
         var w := Wants(st, s, p);
         && Receives(st, s, p)
         && |got| == 1 && Accepts(w.src, got[0]) && y.mem == x.mem[w.at := got[0]] && !y.rts.receiving
  }

  lemma SeesBoth(i: Ipc, j: Ipc, k: Ipc, p: Pid, w: Request, r: bool, w': Request, r': bool)
    requires p < |i.procs| && p < |j.procs|
    requires Sees(i, j, p, w, r) && Sees(j, k, p, w', r')
    ensures Left(j, k, p) && r' == j.procs[p].rts.receiving && (r' ==> w' == w) ==> Sees(i, k, p, w, r)
    ensures Left(i, j, p) ==> Sees(i, k, p, w', r')
  {
    hide Got;
    NewBoth(i, j, k);
    GotBoth(New(i, j), New(j, k), p);
  }

  lemma SeesBusy(i: Ipc, c: Pid, busy: bool, j: Ipc, p: Pid, w: Request, r: bool)
    requires WfIpc(i) && c < |i.procs| && p < |i.procs|
    ensures |SetBusy(i, c, busy).procs| == |i.procs| && SetBusy(i, c, busy).procs == i.procs
    ensures Sees(SetBusy(i, c, busy), j, p, w, r) ==> Sees(i, j, p, w, r)
    ensures Left(SetBusy(i, c, busy), j, p) ==> Left(i, j, p)
  {
    hide Got;
  }

  lemma SeesSendRec(st: State, c: Pid, d: Pid, addr: nat, nb: bool, p: Pid)
    requires Wf(st) && c < |st.ipc.procs| && d < |st.ipc.procs| && p < |st.ipc.procs| && c != d
    requires !st.ipc.procs[c].rts.receiving
    ensures var o := SendRec(st, c, d, addr, nb);
            if p == c then Sees(st.ipc, o.0.ipc, p, Request(addr, Nr(d)), o.1 == OK)
            else Sees(st.ipc, o.0.ipc, p, Open(st.ipc, p), st.ipc.procs[p].rts.receiving)
  {
    hide WfRq, MiniSend, MiniReceive, Got, Left, Grows;
    var st1 := st.(ipc := SetBusy(st.ipc, c, true));
    var (m, r) := MiniSend(st1, c, d, addr, nb);
    SeesSend(st1, c, d, addr, nb, p);
    SeesSend(st1, c, d, addr, nb, c);
    SeesBusy(st.ipc, c, true, m.ipc, p, Open(st.ipc, p), st.ipc.procs[p].rts.receiving);
    SeesBusy(st.ipc, c, true, m.ipc, c, Open(st.ipc, c), st.ipc.procs[c].rts.receiving);
    SeesAt(st.ipc, m.ipc, c, Open(st.ipc, c), Request(addr, Nr(d)), false);
    SameProcs(st1, c, d, addr, nb);
    if r == OK {
      SeesReceive(m, c, Nr(d), addr, nb, p);
      var o := MiniReceive(m, c, Nr(d), addr, nb);
      if p == c {
        SeesBoth(st.ipc, m.ipc, o.0.ipc, p, Request(addr, Nr(d)), false, Request(addr, Nr(d)), o.1 == OK);
      } else {
        SeesBoth(st.ipc, m.ipc, o.0.ipc, p, Open(st.ipc, p), st.ipc.procs[p].rts.receiving,
                 Open(m.ipc, p), m.ipc.procs[p].rts.receiving);
      }
    }
  }

  /** Where it would have arrived does not matter if nothing did. */
  lemma SeesAt(i: Ipc, j: Ipc, p: Pid, w: Request, w': Request, r: bool)
    requires p < |i.procs|
    ensures Sees(i, j, p, w, r) && Left(i, j, p) && !r ==> Sees(i, j, p, w', r)
  {
    hide Got;
  }

  /** The call was refused, or it is not an echo. */
  lemma SeesCall(st: State, f: Function, ep: Endpoint, addr: nat, nb: bool, ok: bool, p: Pid)
    requires Wf(st) && Enabled(st, Call(f, ep, addr, nb, ok)) && p < |st.ipc.procs|
    requires f != ECHO || CheckCall(st, f, ep, ok) != OK
    ensures var o := SysCall(st, f, ep, addr, nb, ok);
            if p == st.current then Sees(st.ipc, o.0.ipc, p, Request(addr, ep), WantsMessage(f) && o.1 == OK)
            else Sees(st.ipc, o.0.ipc, p, Open(st.ipc, p), st.ipc.procs[p].rts.receiving)
  {
    hide WfRq, CheckCall, MiniSend, MiniReceive, MiniNotify, SendRec, Sees, Left;
    var c := st.current;
    var before := st.ipc.procs[p].rts.receiving;
    SeesNothing(st.ipc, st.ipc, p);
    if CheckCall(st, f, ep, ok) != OK {
      SeesAt(st.ipc, st.ipc, p, Open(st.ipc, p), Request(addr, ep), before);
    } else {
      match f
      case SEND =>
        SeesSend(st, c, ep.pid, addr, nb, p);
        SeesAt(st.ipc, MiniSend(st, c, ep.pid, addr, nb).0.ipc, p, Open(st.ipc, p), Request(addr, ep), before);
      case SENDREC => SeesSendRec(st, c, ep.pid, addr, nb, p);
      case RECEIVE =>
        var st0 := st.(ipc := SetBusy(st.ipc, c, false));
        var o := MiniReceive(st0, c, ep, addr, nb);
        SeesReceive(st0, c, ep, addr, nb, p);
        SeesBusy(st.ipc, c, false, o.0.ipc, p, if p == c then Request(addr, ep) else Open(st.ipc, p),
                 if p == c then o.1 == OK else before);
      case NOTIFY =>
        SeesNotify(st, c, ep.pid, p);
        SeesAt(st.ipc, MiniNotify(st, c, ep.pid).ipc, p, Open(st.ipc, p), Request(addr, ep), before);
    }
  }

  lemma AgreesCall(st: State, f: Function, ep: Endpoint, addr: nat, nb: bool, ok: bool, p: Pid)
    requires Wf(st) && Enabled(st, Call(f, ep, addr, nb, ok)) && p < |st.ipc.procs|
    ensures Agrees(st, Call(f, ep, addr, nb, ok), p)
  {
    hide WfRq, CheckCall, Got, SysCall;
    if f == ECHO && CheckCall(st, f, ep, ok) == OK {
      EchoIs(st, ep, addr, nb, ok);
      NewIs(st.ipc, SysCall(st, f, ep, addr, nb, ok).0.ipc, []);
      SeesNothing(st.ipc, st.ipc, p);
    } else {
      if f == ECHO {
        Checked(st, f, ep, addr, nb, ok);
      }
      SeesCall(st, f, ep, addr, nb, ok, p);
    }
  }

  lemma EchoIs(st: State, ep: Endpoint, addr: nat, nb: bool, ok: bool)
    requires Wf(st) && Enabled(st, Call(ECHO, ep, addr, nb, ok)) && CheckCall(st, ECHO, ep, ok) == OK
    ensures var o, m := SysCall(st, ECHO, ep, addr, nb, ok), Letter(st.ipc, st.current, addr);
            o.1 == OK && o.0 == st.(ipc := Store(st.ipc, st.current, addr, m))
  {
  }

  /** `j` is `i` as far as messages are concerned. */
  lemma SeesFrom(i: Ipc, j: Ipc, k: Ipc, p: Pid, w: Request, r: bool)
    requires p < |i.procs| && |j.procs| == |i.procs| && j.log == i.log
    requires j.procs[p].mem == i.procs[p].mem
    ensures Sees(j, k, p, w, r) ==> Sees(i, k, p, w, r)
  {
    hide Got;
  }

  lemma SeesSignal(st: State, d: Pid, sig: nat, p: Pid)
    requires Wf(st) && d < |st.ipc.procs| && p < |st.ipc.procs|
    ensures Sees(st.ipc, SendSig(st, d, sig).ipc, p, Open(st.ipc, p), st.ipc.procs[p].rts.receiving)
  {
    hide WfRq, MiniNotify, Got, Sees;
    var v := st.ipc.procs[d].priv;
    var j := SetSigs(st.ipc, v, st.ipc.privs[v].sigs + {sig});
    SeesNotify(st.(ipc := j), SYSTEM, d, p);
    SeesFrom(st.ipc, j, SendSig(st, d, sig).ipc, p, Open(st.ipc, p), st.ipc.procs[p].rts.receiving);
  }

  lemma SeesInterrupt(st: State, d: Pid, bit: nat, p: Pid)
    requires Wf(st) && d < |st.ipc.procs| && p < |st.ipc.procs|
    ensures Sees(st.ipc, Interrupt(st, d, bit).ipc, p, Open(st.ipc, p), st.ipc.procs[p].rts.receiving)
  {
    hide WfRq, MiniNotify, Got, Sees;
    var v := st.ipc.procs[d].priv;
    var j := SetInts(st.ipc, v, st.ipc.privs[v].ints + {bit});
    SeesNotify(st.(ipc := j), HARDWARE, d, p);
    SeesFrom(st.ipc, j, Interrupt(st, d, bit).ipc, p, Open(st.ipc, p), st.ipc.procs[p].rts.receiving);
  }

  lemma SeesCause(st: State, d: Pid, sig: nat, p: Pid)
    requires Wf(st) && d < |st.ipc.procs| && p < |st.ipc.procs|
    ensures Sees(st.ipc, CauseSig(st, d, sig).ipc, p, Open(st.ipc, p), st.ipc.procs[p].rts.receiving)
  {
    hide WfRq, SendSig, Got, Sees, Dequeue;
    var rp := st.ipc.procs[d];
    if sig in rp.sigs || rp.rts.signaled {
      SeesNothing(st.ipc, CauseSig(st, d, sig).ipc, p);
    } else {
      var j := SetFlags(st.ipc, d, rp.rts.(signaled := true, sigPending := true), rp.sigs + {sig});
      SeesSignal(Block(st, d).(ipc := j), PM, SIGKSIG, p);
      SeesFrom(st.ipc, j, CauseSig(st, d, sig).ipc, p, Open(st.ipc, p), st.ipc.procs[p].rts.receiving);
    }
  }

  lemma SeesTick(st: State, ticks: nat, p: Pid)
    requires Wf(st) && p < |st.ipc.procs|
    ensures Sees(st.ipc, ClockTick(st, ticks).ipc, p, Open(st.ipc, p), st.ipc.procs[p].rts.receiving)
  {
    hide WfRq, MiniNotify, Got, Sees, ChargeAll;
    var st1 := st.(rq := ChargeAll(st.ipc, st.rq, st.current, ticks), realtime := st.realtime + ticks);
    SeesNothing(st.ipc, st.ipc, p);
    SeesNotify(st1.(ticked := st.current), HARDWARE, CLOCK, p);
  }

  lemma SeesExit(i: Ipc, q: Pid, p: Pid)
    requires WfIpc(i) && q < |i.procs| && p < |i.procs|
    ensures Sees(i, Clear(i, q), p, Open(i, p), p != q && i.procs[p].rts.receiving)
  {
    hide Got, WfIpc;
    var j := Clear(i, q);
    var e := Dropped(q, i.procs[q].sendto, Letter(i, q, i.procs[q].messbuf));
    if i.procs[q].rts.sending {
      NewIs(i, j, [e, Exited(q)]);
      GotTwo(e, Exited(q), p);
    } else {
      NewIs(i, j, [Exited(q)]);
      GotOne(Exited(q), p);
    }
  }

  /** Steps that bring nobody anything. */
  lemma SeesRest(st: State, s: Step, p: Pid)
    requires Wf(st) && Enabled(st, s) && p < |st.ipc.procs|
    requires !(s.Call? || s.Reply? || s.Irq? || s.Alarm? || s.SystemSignal? || s.Signal? || s.Tick? || s.ProcessExit?)
    ensures |Next(st, s).ipc.procs| == |st.ipc.procs| && Next(st, s).ipc.log == st.ipc.log
    ensures Next(st, s).ipc.procs[p].rts.receiving == st.ipc.procs[p].rts.receiving
    ensures Open(Next(st, s).ipc, p) == Open(st.ipc, p)
    ensures Next(st, s).ipc.procs[p].mem ==
            if s.Write? && s.p == p then st.ipc.procs[p].mem[s.addr := s.m] else st.ipc.procs[p].mem
  {
    hide WfRq, Enqueue, Dequeue, FirstSignaled;
  }

  lemma AgreesRest(st: State, s: Step, p: Pid)
    requires Wf(st) && Enabled(st, s) && p < |st.ipc.procs|
    requires !(s.Call? || s.Reply? || s.Irq? || s.Alarm? || s.SystemSignal? || s.Signal? || s.Tick? || s.ProcessExit?)
    ensures Agrees(st, s, p)
  {
    hide Next, Enabled;
    SeesRest(st, s, p);
    NewIs(st.ipc, Next(st, s).ipc, []);
  }

  lemma AgreesOther(st: State, s: Step, p: Pid)
    requires Wf(st) && Enabled(st, s) && p < |st.ipc.procs| && !s.Call? && !s.Write?
    requires Sees(st.ipc, Next(st, s).ipc, p, Open(st.ipc, p), Receives(st, s, p))
    ensures Agrees(st, s, p)
  {
    hide Next, Got, Grows;
  }

  /** Whatever the step, memory is what the history says. */
  lemma MemoryAgrees(st: State, s: Step, p: Pid)
    requires Wf(st) && Enabled(st, s) && p < |st.ipc.procs|
    ensures Agrees(st, s, p)
  {
    hide WfRq, SysCall, MiniSend, MiniNotify, SendSig, CauseSig, Interrupt, ClockTick, Clear, Dequeue, Agrees, Sees;
    if s.Call? {
      AgreesCall(st, s.f, s.ep, s.addr, s.nonBlocking, s.pointerOk, p);
    } else if s.Reply? || s.Irq? || s.Alarm? || s.SystemSignal? || s.Signal? || s.Tick? || s.ProcessExit? {
      match s {
        case Reply(d, addr) => SeesSend(st, SYSTEM, d, addr, true, p);
        case Irq(d, bit) => SeesInterrupt(st, d, bit, p);
        case Alarm(d) => SeesNotify(st, CLOCK, d, p);
        case SystemSignal(d, sig) => SeesSignal(st, d, sig, p);
        case Signal(d, sig) => SeesCause(st, d, sig, p);
        case Tick(ticks) => SeesTick(st, ticks, p);
        case ProcessExit(q) => SeesExit(st.ipc, q, p);
      }
      AgreesOther(st, s, p);
    } else {
      AgreesRest(st, s, p);
    }
  }

  // Rights.

  /** What nobody changes in a privilege structure: whose it is, whether its processes can be
      preempted and billed, which traps they may make and to whom they may send. */
  function Fixed(v: Priv): Priv {
    v.(busy := false, pending := [], ints := {}, sigs := {})
  }

  /** Who has which rights. */
  function Rights(i: Ipc): (r: (seq<nat>, seq<Priv>)) {
    (seq(|i.procs|, p requires 0 <= p < |i.procs| => i.procs[p].priv),
      seq(|i.privs|, v requires 0 <= v < |i.privs| => Fixed(i.privs[v])))
  }

  lemma RightsEqual(i: Ipc, j: Ipc)
    requires |j.procs| == |i.procs| && |j.privs| == |i.privs|
    requires forall p :: 0 <= p < |i.procs| ==> j.procs[p].priv == i.procs[p].priv
    requires forall v :: 0 <= v < |i.privs| ==> Fixed(j.privs[v]) == Fixed(i.privs[v])
    ensures Rights(j) == Rights(i)
  {
    hide Fixed;
    assert Rights(j).0 == Rights(i).0;
    assert Rights(j).1 == Rights(i).1;
  }

  /** One process and one privilege structure were changed. */
  lemma OneChanged(i: Ipc, j: Ipc, p: Pid, x: Proc, v: nat, pv: Priv)
    requires p < |i.procs| && v < |i.privs| && j.procs == i.procs[p := x] && j.privs == i.privs[v := pv]
    requires x.priv == i.procs[p].priv && Fixed(pv) == Fixed(i.privs[v])
    ensures Rights(j) == Rights(i)
  {
    hide Rights;
    RightsEqual(i, j);
  }

  lemma RightsAt(i: Ipc, j: Ipc, p: Pid)
    requires Rights(j) == Rights(i) && WfIpc(i) && WfIpc(j) && p < |i.procs|
    ensures |j.procs| == |i.procs| && |j.privs| == |i.privs| && j.procs[p].priv == i.procs[p].priv
    ensures Fixed(j.privs[j.procs[p].priv]) == Fixed(i.privs[i.procs[p].priv])
  {
    assert Rights(j).0[p] == j.procs[p].priv && Rights(i).0[p] == i.procs[p].priv;
    assert |Rights(j).0| == |j.procs| && |Rights(j).1| == |j.privs|;
    var v := i.procs[p].priv;
    assert Rights(j).1[v] == Fixed(j.privs[v]) && Rights(i).1[v] == Fixed(i.privs[v]);
  }

  lemma RightsSend(st: State, s: Pid, d: Pid, addr: nat, nb: bool)
    requires Wf(st) && s < |st.ipc.procs| && d < |st.ipc.procs|
    ensures Rights(MiniSend(st, s, d, addr, nb).0.ipc) == Rights(st.ipc)
  {
    hide WfRq, Enqueue, Dequeue, WouldLock, Letter, Rights;
    var j := MiniSend(st, s, d, addr, nb).0.ipc;
    var v := st.ipc.procs[s].priv;
    var p := if WaitsFor(st.ipc, d, s) then d else s;
    OneChanged(st.ipc, j, p, j.procs[p], v, st.ipc.privs[v]);
  }

  lemma RightsReceive(st: State, r: Pid, src: Endpoint, addr: nat, nb: bool)
    requires Wf(st) && r < |st.ipc.procs|
    ensures Rights(MiniReceive(st, r, src, addr, nb).0.ipc) == Rights(st.ipc)
  {
    hide WfRq, Enqueue, Dequeue, FindNotify, FirstFrom, Letter, BuildMess, Rights, TakeQueued;
    var k := FirstFrom(st.ipc.callers[r], src);
    var j := MiniReceive(st, r, src, addr, nb).0.ipc;
    var v := st.ipc.procs[r].priv;
    if k < |st.ipc.callers[r]| && j == TakeQueued(st.ipc, r, k, addr) {
      RightsTaken(st.ipc, r, k, addr);
    } else {
      OneChanged(st.ipc, j, r, j.procs[r], v, j.privs[v]);
    }
  }

  lemma RightsTaken(i: Ipc, r: Pid, k: nat, addr: nat)
    requires WfIpc(i) && r < |i.procs| && k < |i.callers[r]|
    ensures Rights(TakeQueued(i, r, k, addr)) == Rights(i)
  {
    hide Letter, Rights;
    RightsEqual(i, TakeQueued(i, r, k, addr));
  }

  lemma RightsNotify(st: State, src: Pid, d: Pid)
    requires Wf(st) && src < |st.ipc.procs| && d < |st.ipc.procs|
    ensures Rights(MiniNotify(st, src, d).ipc) == Rights(st.ipc)
  {
    hide WfRq, Enqueue, Dequeue, BuildMess, Rights;
    var j := MiniNotify(st, src, d).ipc;
    var v := st.ipc.procs[d].priv;
    OneChanged(st.ipc, j, d, j.procs[d], v, j.privs[v]);
  }

  lemma RightsCall(st: State, f: Function, ep: Endpoint, addr: nat, nb: bool, ok: bool)
    requires Wf(st) && Enabled(st, Call(f, ep, addr, nb, ok))
    ensures Rights(SysCall(st, f, ep, addr, nb, ok).0.ipc) == Rights(st.ipc)
  {
    hide WfRq, CheckCall, MiniSend, MiniReceive, MiniNotify, Rights;
    var i, c := st.ipc, st.current;
    var v := i.procs[c].priv;
    if CheckCall(st, f, ep, ok) == OK {
      match f
      case SEND => RightsSend(st, c, ep.pid, addr, nb);
      case SENDREC =>
        var st1 := st.(ipc := SetBusy(i, c, true));
        var m := MiniSend(st1, c, ep.pid, addr, nb).0;
        OneChanged(i, st1.ipc, c, i.procs[c], v, i.privs[v].(busy := true));
        RightsSend(st1, c, ep.pid, addr, nb);
        SameProcs(st1, c, ep.pid, addr, nb);
        RightsReceive(m, c, ep, addr, nb);
      case RECEIVE =>
        OneChanged(i, SetBusy(i, c, false), c, i.procs[c], v, i.privs[v].(busy := false));
        RightsReceive(st.(ipc := SetBusy(i, c, false)), c, ep, addr, nb);
      case NOTIFY => RightsNotify(st, c, ep.pid);
      case ECHO =>
        var j := SysCall(st, f, ep, addr, nb, ok).0.ipc;
        OneChanged(i, j, c, j.procs[c], v, i.privs[v]);
    }
  }

  lemma RightsSignal(st: State, d: Pid, sig: nat)
    requires Wf(st) && d < |st.ipc.procs|
    ensures Rights(SendSig(st, d, sig).ipc) == Rights(st.ipc)
  {
    hide WfRq, MiniNotify, Rights;
    var i, v := st.ipc, st.ipc.procs[d].priv;
    var j := SetSigs(i, v, i.privs[v].sigs + {sig});
    OneChanged(i, j, d, i.procs[d], v, j.privs[v]);
    RightsNotify(st.(ipc := j), SYSTEM, d);
  }

  lemma RightsInterrupt(st: State, d: Pid, bit: nat)
    requires Wf(st) && d < |st.ipc.procs|
    ensures Rights(Interrupt(st, d, bit).ipc) == Rights(st.ipc)
  {
    hide WfRq, MiniNotify, Rights;
    var i, v := st.ipc, st.ipc.procs[d].priv;
    var j := SetInts(i, v, i.privs[v].ints + {bit});
    OneChanged(i, j, d, i.procs[d], v, j.privs[v]);
    RightsNotify(st.(ipc := j), HARDWARE, d);
  }

  lemma RightsCause(st: State, p: Pid, sig: nat)
    requires Wf(st) && p < |st.ipc.procs|
    ensures Rights(CauseSig(st, p, sig).ipc) == Rights(st.ipc)
  {
    hide WfRq, SendSig, Dequeue, Rights;
    var i, rp, v := st.ipc, st.ipc.procs[p], st.ipc.procs[p].priv;
    var j := CauseSig(st, p, sig).ipc;
    if sig !in rp.sigs && !rp.rts.signaled {
      j := SetFlags(i, p, rp.rts.(signaled := true, sigPending := true), rp.sigs + {sig});
      RightsSignal(Block(st, p).(ipc := j), PM, SIGKSIG);
    }
    OneChanged(i, j, p, j.procs[p], v, i.privs[v]);
  }

  lemma RightsTick(st: State, ticks: nat)
    requires Wf(st)
    ensures Rights(ClockTick(st, ticks).ipc) == Rights(st.ipc)
  {
    hide WfRq, MiniNotify, Rights, ChargeAll;
    var st1 := st.(rq := ChargeAll(st.ipc, st.rq, st.current, ticks), realtime := st.realtime + ticks);
    RightsNotify(st1.(ticked := st.current), HARDWARE, CLOCK);
  }

  /** The process whose flags, signals or memory a step changes directly, if any. */
  function Touched(st: State, s: Step): Pid
    requires Wf(st)
  {
    match s
    case EndSignal(p) => p
    case TraceStop(p) => p
    case TraceResume(p) => p
    case ProcessExit(p) => p
    case Write(p, _, _) => p
    case GetSignal => FirstSignaled(st.ipc, NR_TASKS)
    case _ => st.current
  }

  /** No step changes anybody's rights. */
  lemma RightsKept(st: State, s: Step)
    requires Wf(st) && Enabled(st, s)
    ensures Rights(Next(st, s).ipc) == Rights(st.ipc)
  {
    hide WfRq, SysCall, MiniSend, MiniNotify, SendSig, CauseSig, Interrupt, ClockTick, Enqueue, Dequeue, Rights;
    match s
    case Call(f, ep, addr, nb, ok) => RightsCall(st, f, ep, addr, nb, ok);
    case Reply(d, addr) => RightsSend(st, SYSTEM, d, addr, true);
    case Irq(d, bit) => RightsInterrupt(st, d, bit);
    case Alarm(d) => RightsNotify(st, CLOCK, d);
    case SystemSignal(d, sig) => RightsSignal(st, d, sig);
    case Signal(d, sig) => RightsCause(st, d, sig);
    case Tick(ticks) => RightsTick(st, ticks);
    case _ => RightsRest(st, s);
  }

  lemma RightsRest(st: State, s: Step)
    requires Wf(st) && Enabled(st, s)
    requires !(s.Call? || s.Reply? || s.Irq? || s.Alarm? || s.SystemSignal? || s.Signal? || s.Tick?)
    ensures Rights(Next(st, s).ipc) == Rights(st.ipc)
  {
    hide WfRq, Enqueue, Dequeue, FirstSignaled, Letter, Rights;
    var p, j := Touched(st, s), Next(st, s).ipc;
    if p < |st.ipc.procs| {
      var v := st.ipc.procs[p].priv;
      OneChanged(st.ipc, j, p, j.procs[p], v, st.ipc.privs[v]);
    }
  }

  // Every run.

  lemma {:induction false} SameSize(trace: seq<State>, steps: seq<Step>, k: nat)
    requires IsRun(trace, steps) && k < |trace|
    ensures |trace[k].ipc.procs| == |trace[0].ipc.procs|
  {
    hide Next, Enabled, Wf, Got;
    if k > 0 {
      SameSize(trace, steps, k - 1);
      ProcessThere(trace[k - 1]);
      MemoryAgrees(trace[k - 1], steps[k - 1], 0);
    }
  }

  lemma ProcessThere(st: State)
    requires Wf(st)
    ensures |st.ipc.procs| > 0
  {
  }

  /** In state `j` of a run `p` trapped to receive, and up to state `k` it has been blocked in that. */
  ghost predicate BlockedSince(trace: seq<State>, steps: seq<Step>, j: nat, k: nat, p: Pid)
    requires |trace| == |steps| + 1
  {
    && j <= k < |steps| && trace[j].current == p && steps[j].Call? && WantsMessage(steps[j].f)
    && forall n :: j < n <= k ==> p < |trace[n].ipc.procs| && trace[n].ipc.procs[p].rts.receiving
  }

  lemma {:induction false} ReceiveBegan(trace: seq<State>, steps: seq<Step>, k: nat, p: Pid) returns (j: nat)
    requires IsRun(trace, steps) && k < |steps| && p < |trace[0].ipc.procs| == |trace[k].ipc.procs|
    requires !trace[0].ipc.procs[p].rts.receiving && trace[k].ipc.procs[p].rts.receiving
    ensures BlockedSince(trace, steps, j, k, p) && Open(trace[k].ipc, p) == Request(steps[j].addr, steps[j].ep)
  {
    hide Next, Enabled, Wf, Got, Grows, OwnMemory;
    SameSize(trace, steps, k - 1);
    MemoryAgrees(trace[k - 1], steps[k - 1], p);
    if trace[k - 1].ipc.procs[p].rts.receiving && !(steps[k - 1].Call? && p == trace[k - 1].current) {
      j := ReceiveBegan(trace, steps, k - 1, p);
    } else {
      j := k - 1;
    }
  }

  /** In every run, a message that the history says was copied to a process is in the memory of that
      process, in the buffer that it named in the trap to receive that it is blocked in or has just
      made, from a source that this trap accepts; and nothing else in its memory has changed. */
  lemma DeliveredToBuffer(trace: seq<State>, steps: seq<Step>, k: nat, p: Pid) returns (j: nat)
    requires IsRun(trace, steps) && k < |steps| && p < |trace[0].ipc.procs| == |trace[k].ipc.procs|
    requires !trace[0].ipc.procs[p].rts.receiving
    requires Got(New(trace[k].ipc, trace[k + 1].ipc), p) != []
    ensures BlockedSince(trace, steps, j, k, p) && |trace[k + 1].ipc.procs| == |trace[k].ipc.procs|
    ensures var got, mem := Got(New(trace[k].ipc, trace[k + 1].ipc), p), trace[k].ipc.procs[p].mem;
            && |got| == 1 && Accepts(steps[j].ep, got[0])
            && trace[k + 1].ipc.procs[p].mem == mem[steps[j].addr := got[0]]
            && !trace[k + 1].ipc.procs[p].rts.receiving
  {
    hide Next, Enabled, Wf, Got, OwnMemory;
    MemoryAgrees(trace[k], steps[k], p);
    if steps[k].Call? && p == trace[k].current {
      j := k;
    } else {
      j := ReceiveBegan(trace, steps, k, p);
    }
  }
}
