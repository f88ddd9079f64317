/** The ready queues: who is on them, at which priority, and who runs next. */
module KernelReady {
  import opened Options
  import opened KernelState
  import opened KernelGraph

  /** Leaving process `but` aside: a process is on a ready queue, once, the one of its priority,
      if and only if it has no flags. */
  ghost predicate ReadyExact(i: Ipc, r: Rq, but: int)
    requires WfIpc(i) && WfRq(r, |i.procs|)
  {
    && (forall q, k :: 0 <= q < NR_SCHED_QUEUES && 0 <= k < |r.ready[q]| ==>
          var p := r.ready[q][k]; p != but && r.slices[p].priority == q && Runnable(i, p))
    && (forall q :: 0 <= q < NR_SCHED_QUEUES ==> NoDup(r.ready[q]))
    && (forall p :: IsPid(i, p) && p != but && Runnable(i, p) ==> p in r.ready[r.slices[p].priority])
  }

  /** next_ptr is the head of the first ready queue that is not empty. */
  predicate NextIsTop(r: Rq)
    requires |r.ready| == NR_SCHED_QUEUES
  {
    var q := FirstBusy(r.ready, 0);
    q < NR_SCHED_QUEUES ==> r.next == r.ready[q][0]
  }

  /** IDLE has the lowest queue, the other kernel tasks the highest, and everybody else stays
      between its own limit and the queue above IDLE's. */
  predicate Ranked(r: Rq)
    requires |r.slices| > NR_TASKS
  {
    && r.slices[IDLE].priority == IDLE_Q
    && (forall p :: IDLE < p < NR_TASKS ==> r.slices[p].priority == 0)
    && (forall p :: NR_TASKS <= p < |r.slices| ==> 0 <= r.slices[p].maxPriority <= r.slices[p].priority < IDLE_Q)
  }

  lemma ReadyOtherIpc(i: Ipc, j: Ipc, r: Rq, p: int)
    requires WfIpc(i) && WfIpc(j) && |i.procs| == |j.procs| && WfRq(r, |i.procs|)
    requires forall x :: IsPid(i, x) && x != p ==> (Runnable(j, x) <==> Runnable(i, x))
    requires ReadyExact(i, r, p)
    ensures ReadyExact(j, r, p)
  {
    assert forall x :: IsPid(j, x) ==> IsPid(i, x);
    forall q, k | 0 <= q < NR_SCHED_QUEUES && 0 <= k < |r.ready[q]|
      ensures Runnable(j, r.ready[q][k])
    {
      assert IsPid(i, r.ready[q][k]);
    }
  }

  lemma ReadyBlocked(i: Ipc, r: Rq, p: int)
    requires WfIpc(i) && WfRq(r, |i.procs|) && IsPid(i, p) && !Runnable(i, p)
    ensures ReadyExact(i, r, p) <==> ReadyExact(i, r, -1)
  {
    if ReadyExact(i, r, -1) {
      assert forall q, k :: 0 <= q < NR_SCHED_QUEUES && 0 <= k < |r.ready[q]| ==> r.ready[q][k] != p;
    }
    if ReadyExact(i, r, p) {
      forall x | IsPid(i, x) && Runnable(i, x)
        ensures x in r.ready[r.slices[x].priority]
      {
        assert x != p;
      }
    }
  }

  lemma NoDupPush(s: seq<Pid>, p: Pid)
    requires NoDup(s) && p !in s
    ensures NoDup([p] + s) && NoDup(s + [p])
  {
  }

  /** What enqueue does to the queues, and that it picks the next process. */
  lemma EnqueueShape(i: Ipc, r: Rq, p: Pid)
    requires WfIpc(i) && WfRq(r, |i.procs|) && p < |i.procs|
    ensures var e := Enqueue(i, r, p); var q := e.slices[p].priority;
            && e.slices == r.slices[p := e.slices[p]]
            && (e.ready == r.ready[q := [p] + r.ready[q]] || e.ready == r.ready[q := r.ready[q] + [p]])
            && NextIsTop(e)
  {
  }

  /** `p` was added to the queue of its priority. */
  lemma ReadyInsert(i: Ipc, r: Rq, e: Rq, p: Pid)
    requires WfIpc(i) && WfRq(r, |i.procs|) && WfRq(e, |i.procs|) && p < |i.procs|
    requires ReadyExact(i, r, p) && Runnable(i, p)
    requires e.slices == r.slices[p := e.slices[p]]
    requires var q := e.slices[p].priority;
             e.ready == r.ready[q := [p] + r.ready[q]] || e.ready == r.ready[q := r.ready[q] + [p]]
    ensures ReadyExact(i, e, -1)
  {
    var q0 := e.slices[p].priority;
    forall q, x | 0 <= q < NR_SCHED_QUEUES
      ensures x in e.ready[q] <==> x in r.ready[q] || (q == q0 && x == p)
    {
    }
    forall q | 0 <= q < NR_SCHED_QUEUES
      ensures NoDup(e.ready[q])
    {
      assert NoDup(r.ready[q]) && p !in r.ready[q];
      NoDupPush(r.ready[q], p);
    }
    forall q, k | 0 <= q < NR_SCHED_QUEUES && 0 <= k < |e.ready[q]|
      ensures e.ready[q][k] != -1 && e.slices[e.ready[q][k]].priority == q && Runnable(i, e.ready[q][k])
    {
      assert e.ready[q][k] in e.ready[q];
    }
  }

  lemma ReadyEnqueue(i: Ipc, r: Rq, p: Pid)
    requires WfIpc(i) && WfRq(r, |i.procs|) && p < |i.procs|
    requires ReadyExact(i, r, p) && Runnable(i, p)
    ensures ReadyExact(i, Enqueue(i, r, p), -1)
    ensures NextIsTop(Enqueue(i, r, p))
  {
    hide ReadyExact, Enqueue, NextIsTop, WfIpc;
    EnqueueShape(i, r, p);
    ReadyInsert(i, r, Enqueue(i, r, p), p);
  }

  lemma {:induction false} FirstBusySame(a: seq<seq<Pid>>, b: seq<seq<Pid>>, q: nat)
    requires |a| == |b| && q <= |a|
    requires forall k :: q <= k <= FirstBusy(a, q) && k < |a| ==> (b[k] == [] <==> a[k] == [])
    ensures FirstBusy(b, q) == FirstBusy(a, q)
    decreases |a| - q
  {
    if q < |a| && a[q] == [] {
      FirstBusySame(a, b, q + 1);
    }
  }

  /** `e` has the queues of `r` without `p`, everybody else in the same order. */
  ghost predicate TakenOut(r: Rq, e: Rq, p: Pid)
    requires p < |r.slices| && 0 <= r.slices[p].priority < |r.ready|
  {
    var q := r.slices[p].priority;
    if p !in r.ready[q] then e == r
    else
      exists k :: 0 <= k < |r.ready[q]| && r.ready[q][k] == p &&
                  e.ready == r.ready[q := r.ready[q][..k] + r.ready[q][k + 1..]]
  }

  lemma FirstOf(s: seq<Pid>, p: Pid) returns (k: nat)
    requires p in s
    ensures k < |s| && s[k] == p && forall j :: 0 <= j < k ==> s[j] != p
  {
    k := 0;
    while s[k] != p
      invariant k < |s| && p in s[k..] && forall j :: 0 <= j < k ==> s[j] != p
      decreases |s| - k
    {
      assert s[k..] == [s[k]] + s[k + 1..];
      k := k + 1;
    }
  }

  lemma OnlyTakenOut(i: Ipc, r: Rq, current: Pid, p: Pid)
    requires WfIpc(i) && WfRq(r, |i.procs|) && p < |i.procs|
    ensures TakenOut(r, Dequeue(i, r, current, p), p)
  {
    hide WfIpc;
    var q := r.slices[p].priority;
    if p in r.ready[q] {
      var k := FirstOf(r.ready[q], p);
      WithoutAt(r.ready[q], k);
    }
  }

  lemma DequeueMembers(i: Ipc, r: Rq, current: Pid, p: Pid)
    requires WfIpc(i) && WfRq(r, |i.procs|) && p < |i.procs|
    requires ReadyExact(i, r, -1)
    ensures var e := Dequeue(i, r, current, p);
            && e.slices == r.slices
            && (forall q, x :: 0 <= q < NR_SCHED_QUEUES ==> (x in e.ready[q] <==> x in r.ready[q] && x != p))
            && forall q :: 0 <= q < NR_SCHED_QUEUES ==> NoDup(e.ready[q])
  {
    hide WfIpc;
    var e := Dequeue(i, r, current, p);
    var q0 := r.slices[p].priority;
    forall q, x | 0 <= q < NR_SCHED_QUEUES
      ensures x in e.ready[q] <==> x in r.ready[q] && x != p
      ensures NoDup(e.ready[q])
    {
      if q == q0 {
        WithoutExact(r.ready[q0], p, x);
      } else {
        assert p !in r.ready[q];
      }
    }
  }

  lemma DequeueExact(i: Ipc, r: Rq, current: Pid, p: Pid)
    requires WfIpc(i) && WfRq(r, |i.procs|) && p < |i.procs|
    requires ReadyExact(i, r, -1)
    ensures ReadyExact(i, Dequeue(i, r, current, p), p)
    ensures Dequeue(i, r, current, p).slices == r.slices
  {
    hide Dequeue;
    DequeueMembers(i, r, current, p);
    var e := Dequeue(i, r, current, p);
    forall q, k | 0 <= q < NR_SCHED_QUEUES && 0 <= k < |e.ready[q]|
      ensures e.ready[q][k] != p && e.slices[e.ready[q][k]].priority == q && Runnable(i, e.ready[q][k])
    {
      assert e.ready[q][k] in e.ready[q];
      assert e.ready[q][k] in r.ready[q];
    }
  }

  /** dequeue leaves exact queues: `p` is on none, and the others are as they were. */
  lemma ReadyDequeue(i: Ipc, r: Rq, current: Pid, p: Pid)
    requires WfIpc(i) && WfRq(r, |i.procs|) && p < |i.procs|
    requires ReadyExact(i, r, -1)
    ensures ReadyExact(i, Dequeue(i, r, current, p), p)
    ensures Dequeue(i, r, current, p).slices == r.slices
    ensures TakenOut(r, Dequeue(i, r, current, p), p)
  {
    hide TakenOut, ReadyExact, Dequeue, WfIpc;
    OnlyTakenOut(i, r, current, p);
    DequeueExact(i, r, current, p);
  }

  /** dequeue picks again only when proc_ptr or next_ptr goes; that is enough. */
  lemma NextDequeue(i: Ipc, r: Rq, current: Pid, p: Pid)
    requires WfIpc(i) && WfRq(r, |i.procs|) && p < |i.procs|
    requires NextIsTop(r)
    ensures NextIsTop(Dequeue(i, r, current, p))
  {
    var e := Dequeue(i, r, current, p);
    var q0 := r.slices[p].priority;
    if p in r.ready[q0] && p != current && p != r.next {
      var top := FirstBusy(r.ready, 0);
      if top == q0 {
        assert e.ready[q0] == [r.ready[q0][0]] + Without(r.ready[q0][1..], p);
      }
      FirstBusySame(r.ready, e.ready, 0);
    }
  }

  /** The feedback of sched, for a process outside the kernel that is within its limits: one that
      spent two quanta in a row goes down one queue, one that spent a quantum after another process
      did goes up one, and neither leaves the limits.  Credit that is left changes nothing. */
  lemma Feedback(r: Rq, p: Pid)
    requires NR_TASKS <= p < |r.slices|
    requires r.slices[p].maxPriority <= r.slices[p].priority < IDLE_Q
    ensures var s, s' := r.slices[p], Reschedule(r, p).slices[p];
            && (s.ticksLeft > 0 ==> Reschedule(r, p) == r)
            && (s.ticksLeft <= 0 ==> s'.ticksLeft == s.quantum && Reschedule(r, p).lastSpent == Some(p))
            && (s.ticksLeft <= 0 && r.lastSpent == Some(p) ==>
                  s'.priority == if s.priority == IDLE_Q - 1 then s.priority else s.priority + 1)
            && (s.ticksLeft <= 0 && r.lastSpent != Some(p) ==>
                  s'.priority == if s.priority == s.maxPriority then s.priority else s.priority - 1)
            && s'.maxPriority == s.maxPriority <= s'.priority < IDLE_Q
            && forall x :: 0 <= x < |r.slices| && x != p ==> Reschedule(r, p).slices[x] == r.slices[x]
  {
  }

  lemma RankedEnqueue(i: Ipc, r: Rq, p: Pid)
    requires WfIpc(i) && WfRq(r, |i.procs|) && p < |i.procs| && Ranked(r)
    ensures Ranked(Enqueue(i, r, p))
  {
  }

  /** IDLE never shares its queue, so it runs only when nobody else can. */
  lemma IdleAlone(i: Ipc, r: Rq)
    requires WfIpc(i) && WfRq(r, |i.procs|) && Runnable(i, IDLE)
    requires ReadyExact(i, r, -1) && Ranked(r)
    ensures r.ready[IDLE_Q] == [IDLE]
  {
    var s := r.ready[IDLE_Q];
    assert IsPid(i, IDLE) && IDLE in s;
    forall k | 0 <= k < |s|
      ensures s[k] == IDLE
    {
    }
    if |s| > 1 {
      TwoDiffer(s);
      assert false;
    }
  }

  lemma TwoDiffer(s: seq<Pid>)
    requires NoDup(s) && |s| > 1
    ensures s[0] != s[1]
  {
  }

  /** The process that restart() will run has no flags, and no runnable process has a higher
      priority. */
  lemma NextRuns(i: Ipc, r: Rq)
    requires WfIpc(i) && WfRq(r, |i.procs|) && Runnable(i, IDLE)
    requires ReadyExact(i, r, -1) && NextIsTop(r)
    ensures Runnable(i, r.next)
    ensures forall p :: IsPid(i, p) && Runnable(i, p) ==> r.slices[r.next].priority <= r.slices[p].priority
  {
    assert IsPid(i, IDLE) && IDLE in r.ready[r.slices[IDLE].priority];
    var q := FirstBusy(r.ready, 0);
    assert r.ready[q][0] == r.next;
    forall p | IsPid(i, p) && Runnable(i, p)
      ensures q <= r.slices[p].priority
    {
      assert p in r.ready[r.slices[p].priority];
    }
  }
}
