/** The state of the MINIX message-passing and scheduling kernel, and what each kernel entry
    does to it, written as functions on values.

    A process is named by its slot in the process table, `p_nr + NR_TASKS`, so that the four
    kernel tasks are the slots below NR_TASKS.  Linked lists appear here as sequences; the class
    `KernelLists.Kernel` holds the links themselves and is proved against these functions.

    The fields of `struct proc` are split in two records.  `Proc` has what message passing and
    signals use, `Slice` has what the scheduler uses, so that a scheduling step visibly leaves
    message passing alone. */
module KernelState {
  import opened Options

  const NR_TASKS: nat := 4
  const IDLE: nat := 0
  const CLOCK: nat := 1
  const SYSTEM: nat := 2
  const HARDWARE: nat := 3
  const PM: nat := 4

  const NR_SCHED_QUEUES: nat := 16
  const MIN_USER_Q: nat := 14
  const IDLE_Q: nat := 15

  const BITCHUNK_BITS: nat := 16
  const NOTIFY_MESSAGE: int := 0x1000
  const SIGKSIG: nat := 19

  type Pid = nat

  datatype Endpoint = Any | Nobody | Nr(pid: Pid)

  /** What a message carries: plain words, or the argument of a notification. */
  datatype Body = Words(words: seq<int>) | Notification(timestamp: int, arg: set<nat>)

  datatype Message = Message(source: Endpoint, mtype: int, body: Body)

  const BLANK := Message(Nobody, 0, Words([]))

  /** The bits of p_rts_flags. */
  datatype Rts = Rts(slotFree: bool, noMap: bool, sending: bool, receiving: bool,
                     signaled: bool, sigPending: bool, stopped: bool, noPriv: bool)
  {
    predicate Zero() {
      !slotFree && !noMap && !sending && !receiving && !signaled && !sigPending && !stopped && !noPriv
    }
    predicate Empty() {
      this == SLOT_FREE
    }
  }

  const SLOT_FREE := Rts(true, false, false, false, false, false, false, false)

  /** `sigs` is p_pending; `mem` is the part of the address space that holds message buffers. */
  datatype Proc = Proc(rts: Rts, priv: nat, messbuf: nat, getfrom: Endpoint, sendto: Pid,
                       sigs: set<nat>, mem: map<nat, Message>)

  datatype Slice = Slice(priority: int, maxPriority: int, ticksLeft: int, quantum: int)

  datatype Function = SEND | RECEIVE | SENDREC | NOTIFY | ECHO

  /** `owner` is s_proc_nr, `busy` the SENDREC_BUSY bit, `pending` s_notify_pending,
      `ints` s_int_pending and `sigs` s_sig_pending. */
  datatype Priv = Priv(owner: Endpoint, busy: bool, preemptible: bool, billable: bool, sysProc: bool,
                       traps: set<Function>, ipcTo: set<nat>,
                       pending: seq<bool>, ints: set<nat>, sigs: set<nat>)

  /** History of a run.  `Accepted`: mini_send took the message.  `Delivered`: a message was copied
      to its destination; `waits` is false when the sender asked not to be blocked.  `Dropped`: the
      sender exited with its message still queued.  `Notified`: a notification was requested.
      `Noticed`: a notification message was copied to its destination. */
  datatype Event =
    | Accepted(src: Pid, dst: Pid, m: Message)
    | Delivered(src: Pid, dst: Pid, m: Message, waits: bool)
    | Dropped(src: Pid, dst: Pid, m: Message)
    | Notified(src: Pid, dst: Pid)
    | Noticed(from: Endpoint, dst: Pid, m: Message)
    | Exited(p: Pid)

  datatype Ipc = Ipc(procs: seq<Proc>, privs: seq<Priv>, callers: seq<seq<Pid>>, log: seq<Event>)

  datatype Rq = Rq(slices: seq<Slice>, ready: seq<seq<Pid>>, next: Pid, bill: Pid, lastSpent: Option<Pid>)

  /** `current` is proc_ptr, `ticked` the prev_ptr that the clock uses. */
  datatype State = State(ipc: Ipc, rq: Rq, current: Pid, ticked: Pid, realtime: int, nextTimeout: int)

  datatype Result = OK | ELOCKED | ENOTREADY | ECALLDENIED | EBADSRCDST | EFAULT | EDEADDST | EINVAL

  // Well-formedness: every index is in range.

  function MapBits(n: nat): nat {
    (n + BITCHUNK_BITS - 1) / BITCHUNK_BITS * BITCHUNK_BITS
  }

  predicate WfIpc(i: Ipc) {
    && |i.procs| > PM
    && |i.callers| == |i.procs|
    && (forall p :: 0 <= p < |i.procs| ==> i.procs[p].priv < |i.privs| && i.procs[p].sendto < |i.procs|)
    && (forall v :: 0 <= v < |i.privs| ==> |i.privs[v].pending| == MapBits(|i.privs|))
    && (forall d, k :: 0 <= d < |i.callers| && 0 <= k < |i.callers[d]| ==> i.callers[d][k] < |i.procs|)
  }

  predicate WfRq(r: Rq, n: nat) {
    && |r.slices| == n
    && |r.ready| == NR_SCHED_QUEUES
    && (forall p :: 0 <= p < n ==> 0 <= r.slices[p].priority < NR_SCHED_QUEUES)
    && (forall p :: 0 <= p < n ==> 0 <= r.slices[p].maxPriority < NR_SCHED_QUEUES)
    && (forall q, k :: 0 <= q < NR_SCHED_QUEUES && 0 <= k < |r.ready[q]| ==> r.ready[q][k] < n)
    && r.next < n
    && r.bill < n
  }

  predicate Wf(st: State) {
    && WfIpc(st.ipc)
    && WfRq(st.rq, |st.ipc.procs|)
    && st.current < |st.ipc.procs|
    && st.ticked < |st.ipc.procs|
  }

  predicate IsPid(i: Ipc, p: int) {
    0 <= p < |i.procs|
  }

  predicate Runnable(i: Ipc, p: Pid)
    requires p < |i.procs|
  {
    i.procs[p].rts.Zero()
  }

  predicate Sending(i: Ipc, p: Pid)
    requires p < |i.procs|
  {
    i.procs[p].rts.sending
  }

  /** `d` is blocked in a receive that a message from `s` would satisfy. */
  predicate WaitsFor(i: Ipc, d: Pid, s: Pid)
    requires d < |i.procs|
  {
    && i.procs[d].rts.receiving
    && !i.procs[d].rts.sending
    && (i.procs[d].getfrom == Any || i.procs[d].getfrom == Nr(s))
  }

  predicate IsKernel(p: Pid) {
    p < NR_TASKS
  }

  // Scheduling.

  /** The first queue at or after `q` that has a process on it. */
  function FirstBusy(ready: seq<seq<Pid>>, q: nat): (r: nat)
    requires q <= |ready|
    ensures q <= r <= |ready|
    ensures forall k :: q <= k < r ==> ready[k] == []
    ensures r < |ready| ==> ready[r] != []
    decreases |ready| - q
  {
    if q == |ready| || ready[q] != [] then q else FirstBusy(ready, q + 1)
  }

  function PickProc(i: Ipc, r: Rq): (r': Rq)
    requires WfIpc(i) && WfRq(r, |i.procs|)
    ensures WfRq(r', |i.procs|)
    ensures r'.ready == r.ready && r'.slices == r.slices && r'.lastSpent == r.lastSpent
  {
    var q := FirstBusy(r.ready, 0);
    if q == NR_SCHED_QUEUES then r else
      var p := r.ready[q][0];
      r.(next := p, bill := if i.privs[i.procs[p].priv].billable then p else r.bill)
  }

  function Clamp(x: int, lo: int, hi: int): int {
    if x < lo then lo else if x > hi then hi else x
  }

  /** The policy for one process: a spent quantum is renewed and the priority moves by one,
      down if the same process spent the previous quantum too, else up. */
  function Reschedule(r: Rq, p: Pid): (r': Rq)
    requires p < |r.slices|
  {
    var s := r.slices[p];
    if s.ticksLeft > 0 then r else
      var penalty := if r.lastSpent == Some(p) then 1 else -1;
      var priority := if IsKernel(p) then s.priority
                      else Clamp(s.priority + penalty, s.maxPriority, IDLE_Q - 1);
      r.(slices := r.slices[p := s.(ticksLeft := s.quantum, priority := priority)],
         lastSpent := Some(p))
  }

  function Enqueue(i: Ipc, r: Rq, p: Pid): (r': Rq)
    requires WfIpc(i) && WfRq(r, |i.procs|) && p < |i.procs|
    ensures WfRq(r', |i.procs|)
  {
    var front := r.slices[p].ticksLeft > 0;
    var r1 := Reschedule(r, p);
    var q := r1.slices[p].priority;
    var queue := if front then [p] + r1.ready[q] else r1.ready[q] + [p];
    PickProc(i, r1.(ready := r1.ready[q := queue]))
  }

  /** `s` without the first occurrence of `p`. */
  function Without(s: seq<Pid>, p: Pid): (r: seq<Pid>)
    ensures forall k :: 0 <= k < |r| ==> r[k] in s
    ensures p !in s ==> r == s
  {
    if s == [] then []
    else if s[0] == p then s[1..]
    else [s[0]] + Without(s[1..], p)
  }

  function Dequeue(i: Ipc, r: Rq, current: Pid, p: Pid): (r': Rq)
    requires WfIpc(i) && WfRq(r, |i.procs|) && p < |i.procs|
    ensures WfRq(r', |i.procs|)
  {
    var q := r.slices[p].priority;
    if p !in r.ready[q] then r else
      var r1 := r.(ready := r.ready[q := Without(r.ready[q], p)]);
      assert forall k :: 0 <= k < |r1.ready[q]| ==> r1.ready[q][k] in r.ready[q];
      if p == current || p == r.next then PickProc(i, r1) else r1
  }

  // Message passing.

  function Fetch(i: Ipc, p: Pid, addr: nat): Message
    requires p < |i.procs|
  {
    if addr in i.procs[p].mem then i.procs[p].mem[addr] else BLANK
  }

  /** The message as CopyMess delivers it: its first word becomes the sender. */
  function Letter(i: Ipc, s: Pid, addr: nat): Message
    requires s < |i.procs|
  {
    Fetch(i, s, addr).(source := Nr(s))
  }

  function SendNow(i: Ipc, s: Pid, d: Pid, addr: nat, waits: bool): (i': Ipc)
    requires WfIpc(i) && s < |i.procs| && d < |i.procs|
    ensures WfIpc(i')
  {
    var m := Letter(i, s, addr);
    var dp := i.procs[d];
    i.(procs := i.procs[d := dp.(rts := dp.rts.(receiving := false), mem := dp.mem[dp.messbuf := m])],
       log := i.log + [Accepted(s, d, m), Delivered(s, d, m, waits)])
  }

  function SendLater(i: Ipc, s: Pid, d: Pid, addr: nat): (i': Ipc)
    requires WfIpc(i) && s < |i.procs| && d < |i.procs|
    ensures WfIpc(i')
  {
    var sp := i.procs[s];
    i.(procs := i.procs[s := sp.(messbuf := addr, rts := sp.rts.(sending := true), sendto := d)],
       callers := i.callers[d := i.callers[d] + [s]],
       log := i.log + [Accepted(s, d, Letter(i, s, addr))])
  }

  function TakeQueued(i: Ipc, r: Pid, k: nat, addr: nat): (i': Ipc)
    requires WfIpc(i) && r < |i.procs| && k < |i.callers[r]|
    ensures WfIpc(i')
  {
    var s := i.callers[r][k];
    var m := Letter(i, s, i.procs[s].messbuf);
    var procs := i.procs[r := i.procs[r].(mem := i.procs[r].mem[addr := m])];
    var sp := procs[s];
    i.(procs := procs[s := sp.(rts := sp.rts.(sending := false))],
       callers := i.callers[r := i.callers[r][..k] + i.callers[r][k + 1..]],
       log := i.log + [Delivered(s, r, m, true)])
  }

  function ReceiveLater(i: Ipc, r: Pid, src: Endpoint, addr: nat): (i': Ipc)
    requires WfIpc(i) && r < |i.procs|
    ensures WfIpc(i')
  {
    var rp := i.procs[r];
    i.(procs := i.procs[r := rp.(getfrom := src, messbuf := addr, rts := rp.rts.(receiving := true))])
  }

  function SetBusy(i: Ipc, p: Pid, busy: bool): (i': Ipc)
    requires WfIpc(i) && p < |i.procs|
    ensures WfIpc(i')
  {
    var v := i.procs[p].priv;
    i.(privs := i.privs[v := i.privs[v].(busy := busy)])
  }

  // Notifications.

  function NotifyFrom(src: Endpoint): int {
    match src
    case Nr(p) => NOTIFY_MESSAGE + p
    case _ => 0x7AD2
  }

  /** The message that BuildMess makes for a receiver with privileges `pv`. */
  function BuildMess(src: Endpoint, pv: Priv, now: int): Message {
    Message(src, NotifyFrom(src),
            Notification(now, if src == Nr(HARDWARE) then pv.ints else if src == Nr(SYSTEM) then pv.sigs else {}))
  }

  /** BuildMess also empties the set that went into the message. */
  function ClearArg(src: Endpoint, pv: Priv): Priv {
    if src == Nr(HARDWARE) then pv.(ints := {}) else if src == Nr(SYSTEM) then pv.(sigs := {}) else pv
  }

  /** The lowest set bit in [k, hi), or hi. */
  function LowestBit(bits: seq<bool>, k: nat, hi: nat): (r: nat)
    requires k <= hi <= |bits|
    ensures k <= r <= hi
    ensures forall j :: k <= j < r ==> !bits[j]
    ensures r < hi ==> bits[r]
    decreases hi - k
  {
    if k == hi || bits[k] then k else LowestBit(bits, k + 1, hi)
  }

  /** The id of the notification that a receive from `src` takes when it starts looking at chunk
      `c`, or the size of the map if it takes none.  Only the lowest bit of each chunk is tried. */
  function FindNotify(i: Ipc, v: nat, src: Endpoint, c: nat): (id: nat)
    requires WfIpc(i) && v < |i.privs| && c * BITCHUNK_BITS <= MapBits(|i.privs|)
    ensures id < |i.privs| || id == MapBits(|i.privs|)
    ensures id < |i.privs| ==> i.privs[v].pending[id] && (src == Any || src == i.privs[id].owner)
    decreases MapBits(|i.privs|) - c * BITCHUNK_BITS
  {
    var size := MapBits(|i.privs|);
    if c * BITCHUNK_BITS == size then size else
      var hi := (c + 1) * BITCHUNK_BITS;
      assert hi <= size;
      var id := LowestBit(i.privs[v].pending, c * BITCHUNK_BITS, hi);
      if id == hi then FindNotify(i, v, src, c + 1)
      else if id >= |i.privs| then size
      else if src != Any && src != i.privs[id].owner then FindNotify(i, v, src, c + 1)
      else id
  }

  function NoticeNow(i: Ipc, src: Pid, d: Pid, now: int): (i': Ipc)
    requires WfIpc(i) && d < |i.procs|
    ensures WfIpc(i')
  {
    var dp := i.procs[d];
    var m := BuildMess(Nr(src), i.privs[dp.priv], now);
    i.(procs := i.procs[d := dp.(rts := dp.rts.(receiving := false), mem := dp.mem[dp.messbuf := m])],
       privs := i.privs[dp.priv := ClearArg(Nr(src), i.privs[dp.priv])],
       log := i.log + [Notified(src, d), Noticed(Nr(src), d, m)])
  }

  function NoticeLater(i: Ipc, src: Pid, d: Pid): (i': Ipc)
    requires WfIpc(i) && src < |i.procs| && d < |i.procs|
    ensures WfIpc(i')
  {
    var v := i.procs[d].priv;
    var pv := i.privs[v];
    i.(privs := i.privs[v := pv.(pending := pv.pending[i.procs[src].priv := true])],
       log := i.log + [Notified(src, d)])
  }

  function TakeNotice(i: Ipc, r: Pid, id: nat, addr: nat, now: int): (i': Ipc)
    requires WfIpc(i) && r < |i.procs| && id < |i.privs|
    ensures WfIpc(i')
  {
    var v := i.procs[r].priv;
    var from := i.privs[id].owner;
    var pv := i.privs[v].(pending := i.privs[v].pending[id := false]);
    var m := BuildMess(from, pv, now);
    i.(procs := i.procs[r := i.procs[r].(mem := i.procs[r].mem[addr := m])],
       privs := i.privs[v := ClearArg(from, pv)],
       log := i.log + [Noticed(from, r, m)])
  }

  /** The position of the oldest queued message that a receive from `src` accepts. */
  function FirstFrom(q: seq<Pid>, src: Endpoint): (k: nat)
    ensures k <= |q|
    ensures k < |q| ==> src == Any || src == Nr(q[k])
    ensures forall j :: 0 <= j < k ==> src != Any && src != Nr(q[j])
  {
    if q == [] || src == Any || src == Nr(q[0]) then 0 else 1 + FirstFrom(q[1..], src)
  }

  /** `n` steps along p_sendto lead from `a` to `b`, every process on the way being SENDING. */
  predicate Leads(i: Ipc, a: Pid, b: Pid, n: nat)
    requires WfIpc(i) && a < |i.procs|
    decreases n
  {
    if n == 0 then a == b else Sending(i, a) && Leads(i, i.procs[a].sendto, b, n - 1)
  }

  /** What the walk at the start of mini_send looks for. */
  ghost predicate WouldLock(i: Ipc, s: Pid, d: Pid)
    requires WfIpc(i) && d < |i.procs|
  {
    exists n: nat :: n > 0 && Leads(i, d, s, n)
  }

  /** The queue that process `p` waits on loses it; its slot becomes free. */
  function Clear(i: Ipc, p: Pid): (i': Ipc)
    requires WfIpc(i) && p < |i.procs|
    ensures WfIpc(i')
  {
    var rp := i.procs[p];
    var callers := if !rp.rts.sending then i.callers
                   else seq(|i.callers|, d requires 0 <= d < |i.callers| => Without(i.callers[d], p));
    assert forall d, k :: 0 <= d < |callers| && 0 <= k < |callers[d]| ==> callers[d][k] in i.callers[d];
    i.(procs := i.procs[p := rp.(rts := SLOT_FREE)],
       callers := callers,
       log := i.log + (if rp.rts.sending then [Dropped(p, rp.sendto, Letter(i, p, rp.messbuf))] else []) + [Exited(p)])
  }

  // Signal sets and run-time flags.

  function SetSigs(i: Ipc, v: nat, sigs: set<nat>): (i': Ipc)
    requires WfIpc(i) && v < |i.privs|
    ensures WfIpc(i')
  {
    i.(privs := i.privs[v := i.privs[v].(sigs := sigs)])
  }

  function SetInts(i: Ipc, v: nat, ints: set<nat>): (i': Ipc)
    requires WfIpc(i) && v < |i.privs|
    ensures WfIpc(i')
  {
    i.(privs := i.privs[v := i.privs[v].(ints := ints)])
  }

  function SetFlags(i: Ipc, p: Pid, rts: Rts, sigs: set<nat>): (i': Ipc)
    requires WfIpc(i) && p < |i.procs|
    ensures WfIpc(i')
  {
    i.(procs := i.procs[p := i.procs[p].(rts := rts, sigs := sigs)])
  }

  // Kernel entries.

  /** After `i` became the message-passing state, put `p` on a ready queue if it has no flags. */
  function Wake(st: State, i: Ipc, p: Pid): (st': State)
    requires Wf(st) && WfIpc(i) && |i.procs| == |st.ipc.procs| && p < |i.procs|
    ensures Wf(st') && st'.ipc == i
  {
    if Runnable(i, p) then st.(ipc := i, rq := Enqueue(i, st.rq, p)) else st.(ipc := i)
  }

  /** Take `p` off the ready queues if it has no flags, before they are set. */
  function Block(st: State, p: Pid): (st': State)
    requires Wf(st) && p < |st.ipc.procs|
    ensures Wf(st') && st'.ipc == st.ipc
  {
    if Runnable(st.ipc, p) then st.(rq := Dequeue(st.ipc, st.rq, st.current, p)) else st
  }

  ghost function MiniSend(st: State, s: Pid, d: Pid, addr: nat, nonBlocking: bool): (o: (State, Result))
    requires Wf(st) && s < |st.ipc.procs| && d < |st.ipc.procs|
    ensures Wf(o.0)
  {
    if WouldLock(st.ipc, s, d) then (st, ELOCKED)
    else if WaitsFor(st.ipc, d, s) then (Wake(st, SendNow(st.ipc, s, d, addr, !nonBlocking), d), OK)
    else if !nonBlocking then
      var st1 := Block(st, s);
      (st1.(ipc := SendLater(st.ipc, s, d, addr)), OK)
    else (st, ENOTREADY)
  }

  function MiniReceive(st: State, r: Pid, src: Endpoint, addr: nat, nonBlocking: bool): (o: (State, Result))
    requires Wf(st) && r < |st.ipc.procs|
    ensures Wf(o.0)
  {
    var v := st.ipc.procs[r].priv;
    var id := FindNotify(st.ipc, v, src, 0);
    var k := FirstFrom(st.ipc.callers[r], src);
    if !Sending(st.ipc, r) && !st.ipc.privs[v].busy && id < |st.ipc.privs| then
      (st.(ipc := TakeNotice(st.ipc, r, id, addr, st.realtime)), OK)
    else if !Sending(st.ipc, r) && k < |st.ipc.callers[r]| then
      (Wake(st, TakeQueued(st.ipc, r, k, addr), st.ipc.callers[r][k]), OK)
    else if !nonBlocking then
      var st1 := Block(st, r);
      (st1.(ipc := ReceiveLater(st.ipc, r, src, addr)), OK)
    else (st, ENOTREADY)
  }

  function MiniNotify(st: State, src: Pid, d: Pid): (st': State)
    requires Wf(st) && src < |st.ipc.procs| && d < |st.ipc.procs|
    ensures Wf(st')
  {
    if WaitsFor(st.ipc, d, src) && !st.ipc.privs[st.ipc.procs[d].priv].busy then
      Wake(st, NoticeNow(st.ipc, src, d, st.realtime), d)
    else st.(ipc := NoticeLater(st.ipc, src, d))
  }

  predicate HasDestination(f: Function) {
    f == SEND || f == SENDREC || f == NOTIFY
  }

  /** The checks of sys_call, in order.  `pointerOk` is the outcome of the message-pointer check. */
  function CheckCall(st: State, f: Function, ep: Endpoint, pointerOk: bool): (res: Result)
    requires Wf(st)
    requires HasDestination(f) ==> ep != Any
    ensures res == OK && ep.Nr? && f != ECHO ==> ep.pid < |st.ipc.procs|
    ensures res == OK && HasDestination(f) ==> ep.Nr?
  {
    var pv := st.ipc.privs[st.ipc.procs[st.current].priv];
    if f !in pv.traps || (ep.Nr? && IsKernel(ep.pid) && f != SENDREC && f != RECEIVE) then ECALLDENIED
    else if !(ep == Any || f == ECHO || (ep.Nr? && ep.pid < |st.ipc.procs|)) then EBADSRCDST
    else if f != NOTIFY && !pointerOk then EFAULT
    else if HasDestination(f) && st.ipc.procs[ep.pid].priv !in pv.ipcTo then ECALLDENIED
    else if HasDestination(f) && st.ipc.procs[ep.pid].rts.Empty() then EDEADDST
    else OK
  }

  /** A send that falls through to a receive from the same process. */
  ghost function SendRec(st: State, c: Pid, d: Pid, addr: nat, nonBlocking: bool): (o: (State, Result))
    requires Wf(st) && c < |st.ipc.procs| && d < |st.ipc.procs|
    ensures Wf(o.0)
  {
    var o := MiniSend(st.(ipc := SetBusy(st.ipc, c, true)), c, d, addr, nonBlocking);
    if o.1 != OK then o else MiniReceive(o.0, c, Nr(d), addr, nonBlocking)
  }

  ghost function SysCall(st: State, f: Function, ep: Endpoint, addr: nat, nonBlocking: bool,
          pointerOk: bool): (o: (State, Result))
    requires Wf(st)
    requires HasDestination(f) ==> ep != Any
    ensures Wf(o.0)
  {
    var c := st.current;
    var check := CheckCall(st, f, ep, pointerOk);
    if check != OK then (st, check) else
      match f
      case SEND => MiniSend(st, c, ep.pid, addr, nonBlocking)
      case SENDREC => SendRec(st, c, ep.pid, addr, nonBlocking)
      case RECEIVE => MiniReceive(st.(ipc := SetBusy(st.ipc, c, false)), c, ep, addr, nonBlocking)
      case NOTIFY => (MiniNotify(st, c, ep.pid), OK)
      case ECHO => (st.(ipc := Store(st.ipc, c, addr, Letter(st.ipc, c, addr))), OK)
  }

  function Store(i: Ipc, p: Pid, addr: nat, m: Message): (i': Ipc)
    requires WfIpc(i) && p < |i.procs|
    ensures WfIpc(i')
  {
    i.(procs := i.procs[p := i.procs[p].(mem := i.procs[p].mem[addr := m])])
  }
}
