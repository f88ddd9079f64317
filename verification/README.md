# MINIX 3.1.0: message passing, scheduling, the shell's control flow and the boot monitor

This project models the parts of MINIX 3.1.0 whose correctness depends on the interplay of several
functions, and proves what they keep, undo and promise.  `dafny verify dfyconfig.toml` checks it.

**The kernel** (`kernel_*.dfy`, `linked_lists.dfy`).  `KernelState` and `KernelSteps` say what each
kernel entry does, as functions on a state of process table, privilege table, caller queues, ready
queues and clock; the state also carries a history of accepted and delivered messages and
notifications.  A run is a sequence of such steps, in any order, by traps, interrupts, the clock and
the handlers of the system task that touch run-time flags.  `KernelInvariant`, `KernelRuns` and
`KernelTheorems` prove an invariant of all runs and what follows from it.  `KernelLaws`,
`KernelEvents`, `KernelPending`, `KernelClock` and `KernelFlags` say of every step, without naming
what does it, whose memory, history, pending sets, credit and flags it changes, and how.
`KernelLists.Kernel` is the code as it is written: tables updated in place, two families of linked
lists edited through pointers to pointers, loops that walk them; each method is proved to do what
the function of the same name does, and `Do` that every step is done by it.  `KernelDebug` is the
kernel's own run-time check of the ready queues, proved to accept exactly the queues that are in
order.

A process is named by its slot, its number plus the number of kernel tasks.  Copying a message is a
copy of a value out of and into a map that stands for the process's message buffers; the history
records the messages as they were copied.  Signal sets, interrupt sets and the mask of a
notification are sets of numbers.  The outcome of the message-pointer check is a parameter.

The proofs about runs make these assumptions, which are the conditions in `KernelSteps.Enabled`,
`KernelNotices.Config` and `KernelTheorems.Fresh`:

- Nobody sends to itself or to ANY.  What happens otherwise is in `SendToSelfNotCaught`.
- Signals, tracing, nice and exit are for processes outside the kernel, and exit for those that are
  not system processes.
- The kernel tasks have privilege structures of their own, IDLE makes no calls, SYSTEM may trap only
  to receive, and processes that share a privilege structure may not trap to receive; this is how
  `kernel/table.c` sets them up.
- The tick work finds `prev_ptr` without flags, which is exact (`ClockWorkExactIff`).  T_RESUME finds
  its process with flags; when it may find it without is said by `AgainExactIff`.
- Memory is written at any time, by its process or by kernel calls that copy, but not the message
  of a blocked sender (`WriteKeepsIff`).
- `restart()` makes `next_ptr` the running process.

**The shell** (`shell_*.dfy`).  `ShellSemantics` gives command trees a meaning in which `break n`,
`continue n` and `return` are outcomes that propagate outwards.  `ShellEval.Shell` is the evaluator
with its variables evalskip, skipcount, loopnest and funcnest, proved to compute that meaning, and
what is still executed when something is pending already.  `ShellContexts` follows execution to any
command inside another one, with all that is left to do around it, and says what the three commands
do there; `ShellTheorems` says what follows for nested loops and for the lines of `eval`, `ShellLaws`
what the commands that choose and repeat execute, and `ShellCd` how `cd` keeps the name of the current directory.

**The boot monitor** (`boot_*.dfy`, `install_boot.dfy`, `arithmetic.dfy`).  `BootImage` is the image
format with its round trip and `InstallBoot` the programs that write and unpack images.
`BootLoader`, `BootExec`, `BootPlan` and `BootLoad` are the loader: the track buffer, the clearing of
memory, segments, the layout of a program, the search for headers and the loop over the programs,
for any contents of the disk.  `BootWalk` and `BootDisk` say what that means for an image that
installboot made.  The arithmetic is that of 32-bit words where it matters.  `BootRawfs` maps file blocks to disk blocks,
`BootTokens` takes command lines apart and puts function bodies together.

**Number printing** (`long2str.dfy`) is the conversion of the archiver, with its division by
shifting and subtracting.

Where code and comments differ the code is followed: the comment in `boot/boot.c:389-393` names five
single-character tokens and the code has more; `boot/rawfs.c:220` promises 0 for a hole, and
`HolesReportedIff` says when that is so.

## Model

| member | source | states |
|---|---|---|
| KernelGraph.LockedIffCycle | kernel/proc.c:214-219 | In a state without cycles the walk along p_sendto meets the caller if and only if queueing the caller would close a cycle of senders. |
| KernelGraph.SendToSelfNotCaught | kernel/proc.c:214-219 | The exception: a runnable process that sends to itself passes the walk, and the queueing that follows makes a cycle of one. |
| KernelGraph.EndsMeansAcyclic | kernel/proc.c:215-219 | If the walk from every process comes to an end, no process waits for itself through any number of senders. |
| KernelGraph.GraphSendLater | kernel/proc.c:230-241 | Blocking a sender that would not lock keeps: queues hold exactly the processes sending to their owner, once; every walk ends; no rendezvous is missed. |
| KernelGraph.GraphTakeQueued | kernel/proc.c:297-307 | Taking a queued message keeps the same. |
| KernelGraph.GraphReceiveLater | kernel/proc.c:311-319 | Blocking a receiver keeps the same, provided nobody it would accept is queued. |
| KernelGraph.GraphClear | kernel/system/do_exit.c:57-76 | Removing an exiting process from the queues keeps the same. |
| KernelNotices.AnyFindsAll | kernel/proc.c:278-295 | A receive from ANY takes a pending notification whenever there is one. |
| KernelNotices.NamedSourceTakesLowest | kernel/proc.c:278-287 | A receive from a named source takes a notification if and only if one of that source is the lowest bit of its chunk; a lower bit in the chunk hides it. |
| KernelNotices.NoticesReceiveLater | kernel/proc.c:273-319 | A process that blocks in a plain receive from ANY has an empty notification map. |
| KernelNotices.NoticesNow | kernel/proc.c:339-353 | A notification delivered at once, which empties the set it carries, keeps every non-empty signal or interrupt set covered by the pending bit of SYSTEM or HARDWARE. |
| KernelNotices.NoticesLater | kernel/proc.c:355-361 | So does marking a notification pending. |
| KernelHistory.ConservedTakeQueued | kernel/proc.c:299-306 | The message that the history has a receiver copy from a queued sender is the one that was accepted from it, and no other is lost or doubled; `KernelLaws.MemoryAgrees` says that it is in memory. |
| KernelHistory.InOrderTakeQueued | kernel/proc.c:297-307 | Queues stay in the order in which their senders were accepted. |
| KernelHistory.KeptTakeNotice | kernel/proc.c:288-293 | A cleared bit is one whose notification message was delivered. |
| KernelReady.ReadyEnqueue | kernel/proc.c:396-437 | Enqueueing a process without flags that is on no queue makes the ready queues exact, and next_ptr the head of the highest one. |
| KernelReady.ReadyDequeue | kernel/proc.c:442-486 | Dequeueing takes just that process off, and leaves the others on their queues in the same order. |
| KernelReady.NextDequeue | kernel/proc.c:469-480 | next_ptr stays the head of the highest queue although a new one is picked only when proc_ptr or next_ptr goes. |
| KernelReady.Feedback | kernel/proc.c:500-533 | The priority goes down one queue after two quanta of one process in a row and up one otherwise, within the limits; credit that is left changes nothing. |
| KernelReady.IdleAlone | kernel/proc.c:516-527 | IDLE is the only process on its queue. |
| KernelReady.NextRuns | kernel/proc.c:539-560 | The process picked has no flags, and no process without flags has a higher priority. |
| KernelRuns.SysCallKeeps | kernel/proc.c:89-195 | Every trap keeps the whole invariant, through the fall from send to receive in SENDREC. |
| KernelRuns.CauseSigKeeps | kernel/system.c:252-281 | After cause_sig the process cannot run and has the signal in its set; if it had none before, PM has just been told of the kernel signal, or that is pending together with SYSTEM's notification; the invariant is kept. |
| KernelRuns.EndKsigKeeps | kernel/system/do_endksig.c:17-38 | A process that could not run goes on only if no signal came while PM dealt with the others, and none is left; the invariant is kept. |
| KernelTheorems.BootKeeps | kernel/main.c:88-172 | The tables filled by main() and the announcements of the boot processes establish the invariant. |
| KernelTheorems.SmallImageBoots | kernel/table.c:98-102 | The kernel tasks and PM as the boot table describes them are such tables. |
| KernelTheorems.StepKeeps | kernel/proc.c:89-361 | Every step of the system - trap, reply, interrupt, alarm, signal, trace stop and resume, nice, exit, clock tick, tick work, restart, write - keeps the invariant. |
| KernelTheorems.RunKeeps | kernel/proc.c:89-361 | The invariant holds in every state of every run. |
| KernelTheorems.RunIsSafe | kernel/proc.c:214-241 | In every state of every run: no cycle of senders, every deadlock walk ends, no sender waits for a process that waits for it, and next_ptr can run at the highest priority there is. |
| KernelTheorems.HistoryGrows | kernel/proc.c:89-361 | A step only adds to the history that the next three results are about. |
| KernelTheorems.MessagesConserved | kernel/proc.c:227-241 | In every state of every run, in which memory may be written at any time except for the message of a blocked sender, the messages accepted from a process are, in order and unchanged, those delivered, and the one it still waits with; `KernelLaws.DeliveredToBuffer` says where they are delivered to. |
| KernelRuns.WriteKeepsIff | kernel/proc.c:297-306 | That exception is exact: writing keeps the invariant if and only if it does not change the message that a blocked sender is to hand over. |
| KernelTheorems.OldestFirst | kernel/proc.c:297-307 | A receive takes the message of the acceptable sender that was accepted first. |
| KernelTheorems.NotificationsKept | kernel/proc.c:339-361 | In every state of every run a notification that was asked for has been delivered, or its bit is still set; signal and interrupt sets are empty unless the bit that announces them is set. |
| KernelTheorems.ReplySucceeds | kernel/system.c:71-98 | While SYSTEM serves a blocking request, nobody else's message and no notification can release the requester, and SYSTEM's reply succeeds and does. |
| KernelTheorems.NonBlockingNotAnswered | kernel/system.c:88-97 | The exception: a request made with NON_BLOCKING finds its maker not waiting, and the reply fails. |
| KernelTheorems.ClockWorkExactIff | kernel/clock.c:111-114 | The tick work keeps the ready queues exact if and only if prev_ptr can run. |
| KernelTheorems.ClockWorkFails | kernel/clock.c:104-114 | A state in which it does not: PM was stopped before the tick work that its used-up quantum causes. |
| KernelLists.AgainExactIff | kernel/system/do_trace.c:127-132 | T_RESUME of a process that could run all the time leaves the links of the ready queues in order if and only if the process used up its time, keeps its priority and is the last of its queue. |
| KernelLists.ResumeFails | kernel/proc.c:416-425 | A state in which it does not: PM in a kernel that was just booted. |
| KernelTheorems.SpentGoesLast | kernel/clock.c:104-114 | A process that used up its quantum gets a new one and goes behind everybody of its priority. |
| KernelLaws.MemoryAgrees | kernel/proc.c:200-362 | For every step and every process: what the history says was copied to it, at most one message, is in its memory at the buffer it gave to its receive, comes from a source that this accepts, and ends it; nothing else in its memory changes but what it writes or echoes itself; and it is left receiving by nothing but its own call, which is remembered. |
| KernelLaws.DeliveredToBuffer | kernel/proc.c:200-362 | In every run, a message that reaches a process is in the buffer named by the trap to receive that it is blocked in or just made, and its source is one that the trap asked for. |
| KernelLaws.RefusedIff | kernel/proc.c:109-155 | A call is refused if and only if it is not `Allowed`, with the error that says why, and then nothing changes. |
| KernelLaws.RightsKept | kernel/priv.h:19-36 | No step changes who has which privilege structure, whose that is, or what it allows. |
| KernelEvents.EventsExplained | kernel/proc.c:157-195 | Every event of every step has its reason: a message is accepted only from the caller of an allowed send or from SYSTEM's reply, with the contents of the named buffer, signed, and for the named destination; a delivered one names its sender; a notification is requested by just the steps that make one and says its source, type and time. |
| KernelEvents.HistoryExplained | kernel/proc.c:89-195 | So it is with everything in the history of every run that starts without one. |
| KernelEvents.SendOutcome | kernel/proc.c:200-247 | An allowed send succeeds if and only if the message is accepted, which is so unless a cycle would be closed or the caller would have to wait and does not want to; otherwise nothing changes. |
| KernelEvents.ReceiveOutcome | kernel/proc.c:252-324 | An allowed receive succeeds if and only if it brings a message or the caller waits; if not, no message that it accepts is queued. |
| KernelPending.NothingLost | kernel/proc.c:59-73 | In every step, an interrupt or signal that waits for a process, or is added, still waits or was in a notification that was delivered, never both, and none comes from nowhere; a pending bit goes only with its notification and comes only on request; and which processes hold notifications back. |
| KernelPending.NotificationsFirst | kernel/proc.c:273-296 | A receive from anybody brings a pending notification before any message. |
| KernelPending.RaisedKept | kernel/system.c:234-247 | In every run, each interrupt and signal ever raised still waits or has been told in a notification of HARDWARE or SYSTEM. |
| KernelClock.TickCharges | kernel/clock.c:186-217 | A tick takes its time from the credit of the running process if that is preemptible, and of the billed one if the running one is not billable, in a signed char, twice if both are the same; the time goes on; CLOCK is told if a timeout or the running process's quantum is due; nothing else changes. |
| KernelClock.StepCredit | kernel/proc.c:500-533 | No other step changes anybody's credit, unless it is used up and renewed, or anybody's limit, but do_nice. |
| KernelClock.StepRegisters | kernel/clock.c:186-217 | Only restart() changes the running process, and between the ticks neither the time nor prev_ptr changes. |
| KernelClock.QuantumEnds | kernel/clock.c:186-217 | A preemptible process that goes on running, whatever else happens, uses up its quantum within as many ticks as it has credit: it is the process that CLOCK is to put behind the others. |
| KernelEvents.ClockTold | kernel/clock.c:212-215 | And then CLOCK is notified. |
| KernelFlags.FlagsChange | kernel/system/do_endksig.c:17-38 | Every flag that has nothing to do with messages, and every set of signals, changes by just the steps that are to change it, for every process. |
| KernelFlags.PlaceOf | kernel/proc.c:396-437 | A process is announced at the front of its queue with credit left, and at the back with a new quantum without. |
| KernelFlags.InterruptWakes | kernel/system/do_irqctl.c:104-126 | A driver that waits for anybody is told of its interrupt at once and is the first to run at its priority. |
| KernelFlags.RunBills | kernel/proc.c:539-560 | In every run, the process to bill is billable, and the next one to run if that is. |
| LinkedLists.ChainsPushBack | kernel/proc.c:237-241 | Linking a process behind the last of one list leaves every list through the same links as it was, but for the new last element. |
| LinkedLists.ChainsRemove | kernel/proc.c:304 | Overwriting the pointer to an element with the element's own link removes just that element, whatever the other lists. |
| KernelLists.LeadsPast | kernel/proc.c:215-219 | Nothing is reachable along p_sendto beyond the process at which the walk stops. |
| KernelLists.Kernel.constructor | kernel/main.c:44-172 | The linked kernel starts in a state that satisfies the invariant. |
| KernelLists.Kernel.PickProc | kernel/proc.c:539-560 | The loop over rdy_head picks the head of the first queue that is not empty, and bills it if it is billable, whatever the rest of the links. |
| KernelLists.Kernel.Sched | kernel/proc.c:491-534 | The penalty arithmetic is the policy stated in Feedback. |
| KernelLists.Kernel.Enqueue | kernel/proc.c:396-437 | The edits of rdy_head, rdy_tail and p_nextready put a process that is on no queue first or last on the abstract queue of its priority; for one that is on a queue the links are given too. |
| KernelLists.Kernel.Dequeue | kernel/proc.c:442-486 | The search through pointers to pointers and the unlinking, tail included, take the process off the abstract queue. |
| KernelLists.Kernel.WalkMeets | kernel/proc.c:214-219 | The deadlock walk ends and answers whether the caller is reached. |
| KernelLists.Kernel.MiniSend | kernel/proc.c:200-246 | The code on tables and links does to the abstract state what the function does that the theorems are about, and returns the same result. |
| KernelLists.Kernel.FindPending | kernel/proc.c:278-287 | The scan over chunks and bits finds the notification that the specification names. |
| KernelLists.Kernel.MiniReceive | kernel/proc.c:251-323 | As for MiniSend. |
| KernelLists.Kernel.MiniNotify | kernel/proc.c:328-361 | As for MiniSend. |
| KernelLists.Kernel.SysCall | kernel/proc.c:89-195 | As for MiniSend, and the invariant is kept. |
| KernelLists.Kernel.LockSend | kernel/proc.c:565-575 | The reply of the system task, which succeeds if the request it answers was blocking. |
| KernelLists.Kernel.SendSig | kernel/system.c:234-247 | The signal is added to s_sig_pending and announced from SYSTEM. |
| KernelLists.Kernel.CauseSig | kernel/system.c:252-281 | As specified, and the invariant is kept. |
| KernelLists.Kernel.GetKsig | kernel/system/do_getksig.c:18-44 | The first process with SIGNALED is found, its signals are handed over and cleared, and it stays blocked. |
| KernelLists.Kernel.EndKsig | kernel/system/do_endksig.c:17-38 | As specified, and the invariant is kept. |
| KernelLists.Kernel.TraceResume | kernel/system/do_trace.c:127-132 | For a process that cannot run as specified, and the invariant is kept; for one that can, the links that result stand for exact ready queues if and only if `Harmless` says so. |
| KernelLists.Kernel.Nice | kernel/system/do_nice.c:38-45 | Requeueing at a new priority keeps the invariant. |
| KernelLists.Kernel.ClearProc | kernel/system/do_exit.c:46-90 | The loops over all caller queues take the exiting process off every one of them; the invariant is kept. |
| KernelLists.Kernel.ClockHandler | kernel/clock.c:157-216 | Ticks are charged to the running process and the one to bill, on signed characters, as `KernelClock.TickCharges` says; the clock task is notified when a quantum or a timer ran out; the invariant is kept. |
| KernelLists.Kernel.DoClocktick | kernel/clock.c:98-114 | A spent process is requeued, whatever its flags; the invariant holds afterwards if and only if a spent process can run. |
| KernelLists.Kernel.Interrupt | kernel/system/do_irqctl.c:104-126 | The interrupt bit is added and announced from HARDWARE; the invariant is kept. |
| KernelLists.Kernel.Do | kernel/proc.c:89-361 | Every step of the transition system is done by the code on tables and links. |
| KernelDebug.CheckRunqueues | kernel/debug.c:110-164 | The run-time check, which follows links it knows nothing about, ends, and accepts if and only if heads, tails and links are those of queues with every process at its priority, at most once, and every ready process on one. |
| KernelDebug.VisitPasses | kernel/debug.c:133-152 | If the queues are in order, whatever process the check reaches passes its tests. |
| KernelDebug.InvariantPasses | kernel/debug.c:110-164 | Every state that satisfies the invariant passes the check. |
| ShellSemantics.Exec | commands/ash/eval.c:191-277 | A pending break or continue counts at least one and at most as many loops as there are around the command, and a return is pending only inside a function. |
| ShellEval.Shell.EvalTree | commands/ash/eval.c:191-277 | For every command tree, anywhere, the evaluator with its flags ends with the variables, status and pending outcome of the structured semantics, and with loopnest and funcnest as they were; if something is pending at first, with those of the semantics that says what is still executed. |
| ShellEval.Shell.Skipping | commands/ash/eval.c:290-297 | Decrementing skipcount and clearing evalskip is: go on after a continue of one loop, leave one loop of a break or continue, pass on a return. |
| ShellEval.Shell.EvalLoop | commands/ash/eval.c:280-313 | The same as for EvalTree, for while and until. |
| ShellEval.Shell.EvalFor | commands/ash/eval.c:317-352 | The same, for for. |
| ShellEval.Shell.EvalCase | commands/ash/eval.c:356-378 | The same, for case: only the first clause that matches is evaluated; `ShellLaws.CaseExecutes` says which that is. |
| ShellEval.Shell.EvalCall | commands/ash/eval.c:696-738 | The same, for function calls: a return ends here, a break passes through, the positional parameters are restored. |
| ShellEval.Shell.BreakCommand | commands/ash/eval.c:875-887 | break and continue are clipped to the loops around them. |
| ShellEval.Shell.EvalString | commands/ash/eval.c:168-183 | The lines of a string, anywhere, are evaluated one after the other, whatever the one before left pending. |
| ShellTheorems.LinesAsSequence | commands/ash/eval.c:168-183 | They do what a sequence of commands does, whatever the next line is, if and only if nothing is pending before it. |
| ShellTheorems.LineAfterBreak | commands/ash/eval.c:168-183 | The shortest case in which they do not: in a loop, a break and a command in the next line, which is executed. |
| ShellTheorems.LinesAtTop | commands/ash/eval.c:168-183 | Outside all loops and functions they always do. |
| ShellTheorems.EnoughFuel | commands/ash/eval.c:191-313 | The bound on loop rounds and calls does not matter: more of it gives the same result. |
| ShellTheorems.NothingPendingAtTop | commands/ash/eval.c:862-887 | No break, continue or return is left pending outside all loops and functions. |
| ShellTheorems.LeavesExactly | commands/ash/eval.c:862-887 | In any nest of for loops, break n ends exactly min(n, loops around it) loops and continue n one less and goes on with the next; the final values of all loop variables say so. |
| ShellContexts.PathMeans | commands/ash/eval.c:191-378 | Wherever execution gets to inside a command - sequences, tests, rounds of loops, clauses, function bodies - finishing what is around the part with the part's result gives the result of the whole. |
| ShellContexts.BreakReached | commands/ash/eval.c:862-887 | break n anywhere inside a command ends exactly the min(n, loops around it) innermost loops, through tests, cases and calls, and what follows the last of them is executed next; if the command has fewer, the rest of the count is pending after it. |
| ShellContexts.ContinueReached | commands/ash/eval.c:862-887 | continue n ends one loop less, and the next one goes on with its next round. |
| ShellContexts.Cause | commands/ash/eval.c:862-906 | Whatever a command leaves pending was caused by a break, continue or return that was executed inside it, and the count and the state are what it leaves. |
| ShellContexts.ReturnReached | commands/ash/eval.c:894-906 | return v anywhere in a function ends the innermost call, whose status is v if and only if no loop of the function is left in its test, or the outermost of those executed a body with status v last. |
| ShellContexts.ReturnStatus | commands/ash/eval.c:286-312 | Every function body that ends with a return executed such a return, and kept its status under just that condition. |
| ShellTheorems.ReturnInTestLosesStatus | commands/ash/eval.c:286-312 | The shortest case in which it does not: a function that is a loop with return v for its test returns 0. |
| ShellLaws.CaseExecutes | commands/ash/eval.c:357-386 | Of a case command the first clause is executed one of whose patterns, whichever, accepts the word. |
| ShellLaws.CaseExecutesNothing | commands/ash/eval.c:357-386 | If no pattern of any clause does, nothing is executed. |
| ShellLaws.Chosen | commands/ash/eval.c:191-262 | What follows ;, && and || is executed always, after success, after failure; of an if, the one part or the other. |
| ShellLaws.LoopRuns | commands/ash/eval.c:280-315 | The body of a while loop is executed as long as the test succeeds, of an until loop as long as it fails; the status is that of the last body, or 0. |
| ShellLaws.ForRuns | commands/ash/eval.c:317-355 | A for loop executes its body once for each word of its arguments, in order. |
| ShellLaws.PendingRuns | commands/ash/eval.c:191-262 | While something is pending simple commands are still executed, but no body of a for, no clause of a case, and no second command. |
| ShellLaws.PendingCommands | commands/ash/eval.c:862-906 | A break, continue or return that is reached then takes the place of what is pending; functions are defined and called, and a pending return ends with the call. |
| ShellLaws.PendingLoop | commands/ash/eval.c:280-315 | A loop that is reached then executes its test and takes what is pending for its own. |
| ShellLaws.CallRuns | commands/ash/eval.c:696-738 | A function is executed with its arguments as parameters, which are put back. |
| ShellLaws.DefinedRuns | commands/ash/eval.c:257-260 | What is executed is its last definition. |
| ShellCd.Directory.GetComponent | commands/ash/cd.c:242-259 | Cutting the string at the next slash yields the components one by one. |
| ShellCd.Directory.UpdatePwd | commands/ash/cd.c:271-306 | Pushing and popping characters on the buffer is pushing and popping components on a stack; curdir stays the normal absolute name of the directory. |
| ShellCd.SplitPath | commands/ash/cd.c:284-298 | The components of a normal name are the directory stack. |
| ShellCd.NameDetermines | commands/ash/cd.c:299-305 | Different directories have different names. |
| ShellCd.CdByName | commands/ash/cd.c:254-305 | From everywhere the name of a directory leads to it. |
| ShellCd.DownAndUp | commands/ash/cd.c:281-298 | A name leads down, .. back up and at the root nowhere, . nowhere. |
| ShellCd.CdTwice | commands/ash/cd.c:281-298 | Changing to a and then to a relative b is changing to a/b, if and only if a is not empty or b climbs to the root anyway. |
| Long2Str.Long2Str | commands/aal/long2str.c:20-66 | For every base and every number that fits the buffer, the digits written backwards are the specified string. |
| Long2Str.DivideUnsigned | commands/aal/long2str.c:42-55 | Shifting and subtracting divides the unsigned value, for numbers whose sign bit is set too. |
| Long2Str.ReadBack | commands/aal/long2str.c:20-66 | Reading the string back gives the number, as signed or unsigned as the sign of the base says. |
| Long2Str.FitsIff | commands/aal/long2str.c:13-27 | The 32-byte buffer is large enough if and only if the base is at least 3, or in base 2 the number is above -2^30, or in base -2 it is not negative. |
| BootImage.RoundTrip | boot/installboot.c:195-257 | For any list of complete programs, extracting the image made of them gives back each name and, up to the symbol table, each file. |
| BootImage.RoundTripOne | boot/installboot.c:284-333 | One program comes out of the front of an image whatever follows it. |
| BootImage.ExtractSegments | boot/installboot.c:174-193 | Segments padded to sectors one by one are found again. |
| BootImage.StripKeeps | boot/installboot.c:226-228 | Stripping the symbol table changes a_syms and one flag and nothing else. |
| BootImage.FieldsRead | include/a.out.h:6-50 | Each field of a header and each flag is read from where `struct exec` has it, for all values. |
| BootImage.NameKept | boot/installboot.c:58-75 | A name of up to 62 characters is kept, a longer one cut. |
| InstallBoot.CopyExec | boot/installboot.c:174-193 | The byte loop copies n bytes and pads to a sector, and fails if and only if the file ends first. |
| InstallBoot.ReadHeader | boot/installboot.c:96-126 | The two reads, the second byte by byte up to the length or the end of the file, get the specified header or fail; they write behind the structure if and only if the file is longer than that, has the magic number, and its header is longer than the structure or shorter than what was read first. |
| InstallBoot.OverrunsBothWays | boot/installboot.c:119-126 | The shortest files that do so: one that says its header has no bytes, which makes the second read one of a negative length, and one that says 49. |
| InstallBoot.MakeImage | boot/installboot.c:195-257 | The image is the specified one, and making it fails exactly when one of the programs cannot go in; a structure is overrun if and only if the header of the first of those does that. |
| InstallBoot.ExtractExec | boot/installboot.c:268-282 | The sector loop takes exactly the padded segment off the image. |
| InstallBoot.ExtractImage | boot/installboot.c:284-333 | What is extracted, or that it fails, is as specified, also for page aligned programs with headers of any length; bytes from behind the structure get into a file if and only if a program is reached that is not page aligned and has a header longer than that. |
| BootImage.OverreadsNot | boot/installboot.c:314-319 | That does not happen to an image that comes apart as specified. |
| BootLoader.Loader.GetSector | boot/bootimage.c:269-319 | Whatever was asked for before, the bytes returned are those of the sector, zeros for a hole; it fails only if there is no such sector or the disk cannot be read there. |
| BootLoader.Loader.RawClear | boot/bootimage.c:98-120 | Copying what is already clear, twice as much each time, clears exactly the bytes asked for. |
| BootLoader.Loader.CopySectors | boot/bootimage.c:354-369 | The loop copies the segment in clicks or sectors; unless one of the segment's own sectors cannot be read, it succeeds if and only if there is room before every unit. |
| BootLoader.Loader.GetSegment | boot/bootimage.c:349-377 | Unless one of its sectors cannot be read, a segment is loaded if and only if it is empty or there is room; then it is in memory, zero extended to a click, addr, size and vsec moved by its room and its sectors; nothing below addr or from limit on was touched, in failure either. |
| BootLoader.NoRoom | boot/bootimage.c:361 | Where the room test before some unit fails, the segment does not meet the condition for success. |
| BootLoader.RoomierThanNeeded | boot/bootimage.c:361 | A segment that fits in the last click of memory and is turned down, because the test asks for a whole click before every sector. |
| BootLoader.ZeroExtension | boot/bootimage.c:371-376 | The bytes cleared behind a segment, empty or not, go up to the click at which its room ends. |
| Arithmetic.AlignIsCeil | boot/bootimage.c:123 | align() on 32-bit words is rounding up, also of a negative number, whose rounded value comes out as a word. |
| BootExec.ThreeRoundings | boot/bootimage.c:484-541 | Rounding data, bss and stack one after the other, each carrying over what the one before left of its click, takes as much as rounding their sum once, for all values. |
| BootExec.ProcSizeIsWhatIsRead | boot/bootimage.c:234-244 | proc_size is the number of sectors that loading consumes, for every combination of flags. |
| BootExec.LoadSegments | boot/bootimage.c:484-513 | Unless one of the sectors cannot be read, text and data are loaded if and only if there is room for the one and then the other; they are one segment or two, and cs, ds and data point where they should. |
| BootExec.LoadProgram | boot/bootimage.c:463-541 | Unless one of its sectors cannot be read, a program is loaded if and only if there is room for its text, data and bss; with its cleared bss and its stack it takes the specified room; nothing below addr or from limit on was written, in failure either. |
| BootExec.StackPastLimit | boot/bootimage.c:521-541 | The stack is not part of that: a program that is loaded and whose stack ends above limit. |
| BootExec.TakesTotal | boot/bootimage.c:466-541 | With K_CHMEM a program takes the memory that its header asks for in total; without, that of its segments; with K_CLAIM only the kernel gets more than text and data. |
| BootWalk.ProgramAt | boot/installboot.c:208-247 | Each program of an image starts as many sectors into it as the programs before it take. |
| BootWalk.BuiltFile | include/a.out.h:52-55 | Of a file made of a header, text and data these are the text and data, and the sizes are those of the header. |
| BootWalk.LoadedAsWanted | boot/bootimage.c:484-527 | What is loaded from an image made by make_image is the text and data of the file, followed by zeros to the end of the bss. |
| BootPlan.NextHeader | boot/bootimage.c:424-437 | Programs with the wrong label are skipped as `Search` skips them, whatever is on the disk; it fails only if there is none left, the disk ends or a sector that is not a header is met, or a sector cannot be read. |
| BootPlan.GetClickShift | boot/bootimage.c:321-347 | Click size and flags are those in the kernel text, or refused; `FeaturesTaken` says which bits they are. |
| BootPlan.FeaturesTaken | boot/bootimage.c:31-40 | The kernel's features are taken bit by bit as they are said, with clicks of the size said, unless there is an unknown feature or the size is out of range. |
| BootLoad.PlaceProgram | boot/bootimage.c:459-541 | One more program is loaded if and only if its sectors are there and there is room, unless one of them cannot be read; those already loaded, their saved headers and all other memory are as they were. |
| BootLoad.SavedAddress | boot/bootimage.c:452-457 | The kernel finds the load address of a program in a_syms of its saved header, and the other sizes as they were. |
| BootLoad.ExecImage | boot/bootimage.c:402-552 | On any disk: if all sectors can be read, loading succeeds if and only if what is found is `Bootable`: the search gets to the end of the image, it finds at least one selected program and at most sixteen, the first tells a good click size, the processor will do, and each in turn is all there and has room behind the stack of the one before; then exactly these are in memory, in order, each as it is on the disk and with its header saved, and the stack of each that has another behind it is below the limit; nothing outside the memory blocks was written, in failure either. |
| BootDisk.HeaderAt | boot/bootimage.c:422-437 | Walking the image of any programs in whole programs lands on every header. |
| BootDisk.PlanOfImage | boot/bootimage.c:414-437 | In the image of any programs, in a file of any length or at any offset of a device, exactly the selected ones are found, in order; if the last is not selected the search goes on behind the image. |
| BootDisk.ImageBootable | boot/bootimage.c:402-552 | If the last program is selected, whether the image can be loaded depends on the sizes of its programs, the processor and the click size alone, and not on what is behind it. |
| BootDisk.KernelInFile | boot/bootimage.c:321-347 | That click size is the one in the file of the kernel, if it has text or data. |
| BootDisk.AsInFiles | boot/bootimage.c:484-527 | Each program that was loaded is in memory as it is in its file, the text at its start and the data where its field says. |
| BootDisk.DamagedImage | boot/bootimage.c:405-416 | Sectors whose loss can make loading fail are those of the image, and the one behind it if an empty kernel ends it. |
| BootDisk.UnselectedLast | boot/bootimage.c:402-437 | The exception: with one more program at the end that is not selected the same programs are found, but loading fails, or, if a program is found behind the image, that one is to be loaded as well. |
| BootDisk.TinyBoots | boot/bootimage.c:321-347 | The image of one kernel of six bytes is bootable wherever it is; by the above it no longer is with an unselected program and no header behind it. |
| BootDisk.TwoBoot | boot/bootimage.c:463-550 | An image of two programs is bootable if and only if there is room for both where the features say: behind all that the kernel asks for with K_CHMEM, behind its segments without, in extended memory with K_HIGH. |
| BootRawfs.Rawfs.Vir2Abs | boot/rawfs.c:218-285 | With cached indirect blocks the answer is that of the uncached walk, after any calls; `BlockIsListed` says what that is. |
| BootRawfs.Rawfs.Stat | boot/rawfs.c:160-174 | Changing the file forgets the caches. |
| BootRawfs.SlotIs | boot/rawfs.c:228-281 | The divisions of the walk find the zone in the list of all zones: the direct ones, those of the indirect block, those of each block that the double indirect block lists. |
| BootRawfs.BlockIsListed | boot/rawfs.c:218-285 | The block of a file is the one at its place in the list of all its blocks, which is made by joining them. |
| BootRawfs.Injective | boot/rawfs.c:235-284 | If no zone is listed twice, different blocks that are there are different blocks of the disk. |
| BootRawfs.HoleReported | boot/rawfs.c:235-284 | The result is 0 if and only if the block is a hole and an indirect block is missing or it is the first of its zone. |
| BootRawfs.HolesReportedIff | boot/rawfs.c:218-285 | All holes of all files are reported as 0 if and only if zones are single blocks. |
| BootTokens.ScanToken | boot/boot.c:339-379 | The cursor moves over exactly one token. |
| BootTokens.Tokenize | boot/boot.c:388-407 | The tokens of the line are inserted in the chain, in order, at the given place. |
| BootTokens.FunctionBody | boot/boot.c:1647-1666 | The loop that joins the body stays within the chain of tokens if and only if the body ends before the chain does, or the chain ends with a special character; then the body is the tokens up to its end, joined, and fits the allocated length. |
| BootTokens.NoSeparator | boot/boot.c:1647-1666 | The shortest body with which it does not: a word at the end of the chain, as the last command of a function leaves it. |
| BootTokens.RoundTripIff | boot/boot.c:1657-1666 | Taking a stored body apart gives back its tokens if and only if every '(' token but perhaps the last is closed. |
| BootTokens.TokensAreTokens | boot/boot.c:339-379 | Every token of every line is a special character, a parenthesis or a word. |
| BootTokens.LinesAreCommands | boot/boot.c:339-379 | Commands on lines of their own, with blank lines between them or not, have the tokens of the same commands with a semicolon between them. |

## Left out

- Hardware, assembly and protection: `restart`, `cp_mess`, interrupt controllers, segments; interrupts are steps of their own.
- fork, exec, newmap, privctl and setalarm handlers and the timer queue: the set of process slots only shrinks, and the time of the next timeout is an arbitrary value set from outside.
- KernelLists.Kernel.ClearProc: leaves out the alarm timer and the interrupt hooks of the exiting process, and does not release the privilege structure of a system process, because runs are about exits of user processes.
- Call numbers that name no system call, the scaling of nice values to queues, and the checks and replies of the handlers of the system task other than those modelled.
- Accounting times, stack guards, messages on the console and the random-number pool of the kernel.
- What happens to senders that wait for a process when it exits: they stay on its queue, as in the code.
- General freedom from deadlock: only cycles of senders are excluded, as in the code.
- KernelDebug.CheckRunqueues: leaves out the limit of 10000 steps, which tables of up to 5000 slots never reach; p_found is a local variable, and p_ready is given.
- KernelLists.Kernel.DoClocktick: leaves out the timers, because they only cause notifications, which are steps of their own.
- Runs in which T_RESUME finds its process able to run, after which the links may not be lists any more, as `ResumeFails` shows; T_STEP schedules as T_RESUME does.
- ShellEval.Shell.EvalTree: takes a bound on loop rounds and nested calls, and gives up when it is used up, because the original need not end; `EnoughFuel` says that the bound changes no result.
- ShellEval.Shell.EvalString: takes the lines as command trees, because parsing is left out; the builtin itself is not a node of the trees.
- Subshells, pipes, background jobs, redirection, command substitution, `-e`, local variables, traps and long jumps of the shell; a simple command is a function of variables and parameters.
- BootImage.RoundTrip: only for headers of 32 to 48 bytes, because the original reads others past the end of its structure; `InstallBoot.ReadHeader` says when, and what happens then is left out.
- InstallBoot.ExtractImage: says when bytes from behind the structure are written to a file, but not which ones, nor how it goes on then.
- Truncating path names to the base name in `installboot`, and images on devices, whose length is not known.
- BootLoad.ExecImage: takes disks that have an end, behind which nothing looks like a header, programs to be loaded of at most 64 megabytes, with stacks that are not negative, and memory below 2 gigabytes, so that sums of addresses do not wrap around; sector numbers are not bounded; patching sizes into the kernel, the magic number and boot parameters are left out.
- BootLoader.Loader.GetSector: takes sector numbers below 2^32 - 16, so that the end of a track does not wrap around.
- BootRawfs.Rawfs.Vir2Abs: takes files that fit under a double indirect block; block numbers are not bounded.
- Path lookup and directories of the boot file system, menus, devices and the environment of the monitor.
