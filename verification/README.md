# A verified model of the microkernel

The kernel is a small x86_64 microkernel: two ring-3 processes under a preemptive timer scheduler, an async
executor that the interrupt handlers drain, one-message mailboxes between tasks, and a boot sequence that maps a
heap, an ELF image and user stacks out of a bump frame allocator. This project models those three cores, joins the
first two into one running kernel, and proves what the kernel is for:

* **Preemption** (`Cpu`, `Trap`, `Scheduler`, `Virtualisation`, `Waiting`). One register file, one TSS slot and one
  flat stack memory, driven by ring-3 steps, system calls, timer ticks, device interrupts and faults, give every live
  task the processor it would have had alone. Every interrupt writes only to the running task's own kernel stack.
  A running task keeps the processor for its whole slice, and a Ready task waits no longer than the slices of all
  others add up to. Memory is byte-addressed with unaligned words,
  so the processor's alignment of RSP0 is part of the model; what a handler's Rust frames write below the saved frame
  and what it leaves in the registers is arbitrary.
* **The executor and IPC** (`Mailbox`, `AsyncExecutor`, `Tokens`, `IpcSteps`, `Keyboard`, `LockOrder`). Futures are finite
  scripts of receives, sends, wakes and bare pends. The drain terminates; tasks that pend only in receives have exactly
  one queue token while Ready and none while blocked, so at most 100 of them never overflow the queue, no wake-up is
  lost and a drain leaves nothing undone. The receive protocol is proved again with every operation on the mailbox and
  state locks, and on what they protect, a step of its own, and any number of senders; the scancode stream with every
  queue and waker operation a step of its own; and all lock programs together are deadlock free.
* **The running kernel** (`WholeKernel`). The machine and the executor share the registry, the current task's id and
  tasks; interrupts drain the executor and system calls reach it. What the machine takes for granted of a drain or a
  send is proved of the executor's, and virtualisation, final termination, the wake-up protocol and the delivery of
  messages, from the send call to the receipt, hold over every run of the two together, from the state `kernel_main`
  leaves. Each interrupt and each
  modelled system call is an imperative method with exactly the effect of one step.
* **Boot memory** (`Frames`, `Paging`, `Loader`). Reads and writes go through the page-to-frame map. No two pages share
  a frame and no page reaches a page table or a frame still to be handed out, so the loaded image is exactly what the
  ELF format prescribes and stays so while the stacks are mapped. With frames left the boot gets through exactly when
  no two parts of it want the same page.

`Tasks` holds the task control block that the cores share. Code that updates state in place is a class (`Task`,
`Kernel`, `Executor`, `InitMailbox`, `ScancodeStream`, `BootInfoFrameAllocator`, `Mapper`); each of its methods is proved
to have the effect of a function on a snapshot of the state, and the theorems over whole runs are about those functions.
The scheduler and the executor look at a task object through different views, so a task may be in both lists.

## Where the code and its comments differ

The model follows the code.

* Faults are said never to return to the faulting context (`kernel/src/interrupts.rs:194`). A fault returns to the
  faulting task if and only if it is the only one (`FaultReturnsIff`), and then one word askew, at its error code. It
  lands on a dead task if and only if nobody is Ready and the plain successor is dead (`FaultLeavesTheDeadIff`). That
  happens in this kernel: once one of its two processes has faulted, a fault of the other, whenever it comes, resumes
  the first one's old askew frame (`SecondOfTwoFaultsResumesTheFirst`); two faults right after the boot are enough
  (`TwoFaultsFromBoot`).
* `SYS_EXIT` is said to mark the caller, which the scheduler then skips (`kernel/src/syscall/mod.rs:106`).
  User processes are never put in TASK_REGISTRY (`kernel/src/main.rs:76-80`), and every drain resets the caller's
  identity to 0; `ExitEndsCallerIff` and `SetPriorityAppliesIff` say exactly when the calls have an effect.
* The loader's comment promises W^X (`kernel/src/loader.rs:56`), but no page is ever made non-executable. An image obeys
  it if and only if it has no writable segment (`ImageIsWriteXorExecuteIff`), a header's permissions are what its pages
  get if and only if it asks for execution (`HeaderHonouredIff`), and no booted kernel obeys it, since every page of a
  user stack can be written and executed (`BootMemory`).
* The priority is described as the number of ticks a task gets (`kernel/src/task/mod.rs:54`). A slice ends at the next
  multiple of the priority (`SwitchesIff`, `KeepsItsSlice`): a task dispatched at tick t gets its full p ticks if and
  only if p divides t (`SliceEnds`).
* A kill is meant to be final. Where interrupts cannot interleave with a drain it is (`KernelDeadStayDead`,
  `KernelTerminatedForever`); with single lock steps interleaved it is if and only if it strikes outside the stretch of
  a poll that ends in the future's own store of the state (`KillIsFinalIff`).

## Model

| member | source | states |
|---|---|---|
| Cpu.PushesStore | kernel/src/interrupts.rs:49-52 | pushing any register list stores it downwards from RSP, changes no register, and no byte outside the pushed range |
| Cpu.PopsLoad | kernel/src/interrupts.rs:56-59 | popping the reverse of a stored list loads every listed register and only those |
| Cpu.SaveRestore | kernel/src/interrupts.rs:47-60 | save, arbitrary code that keeps RSP and the saved bytes, restore: the listed registers and RSP are back, the others keep what that code left |
| Trap.RestoresReverseSaves | kernel/src/interrupts.rs:49-59 | each of the kernel's three restore lists is the reverse of its save list (wrapper, system call, switch) |
| Trap.EnterSaves | kernel/src/interrupts.rs:47-54 | a handler without error code runs above a complete 20-word frame of the interrupted context, at the aligned RSP0 less 160, and nothing outside it was written |
| Trap.FaultEnters | kernel/src/interrupts.rs:89-98 | with an error code the frame is one word lower and decodes one word askew |
| Trap.LeaveResumes | kernel/src/interrupts.rs:55-60 | leaving through a complete frame resumes exactly its context, whatever is in the registers |
| Trap.FaultFrameIsNotResumable | kernel/src/interrupts.rs:55-60 | resuming a fault's own frame gives the interrupted context if and only if the six words happen to be equal |
| Trap.SyscallIsTransparent | kernel/src/syscall/mod.rs:49-85 | the stub hands over number and arguments in C order and gives back RSP, RIP, RFLAGS and every register but RAX, with RCX and R11 holding the RIP and RFLAGS that SYSCALL put there |
| Trap.SwitchRoundTrip | kernel/src/arch/x86_64/switch.rs:3-29 | switching away and back returns to the caller's return address with its six callee-saved registers |
| Trap.SwitchSavesCalleeSaved | kernel/src/arch/x86_64/switch.rs:6-11 | the context switch saves exactly the six registers a C function must preserve |
| Tasks.CreateUserProcess | kernel/src/task/mod.rs:90-128 | popping the forged stack starts the process with RIP at the entry point, RSP at the user stack, fifteen zeros, the user code and data selectors and interrupts enabled; only its own 160 bytes are written; Ready, priority 5, 32 KiB of kernel stack |
| Scheduler.PickIsNearestReady | kernel/src/interrupts.rs:144-152 | the scan selects the nearest Ready successor, itself last; without a Ready task it falls through to the plain successor |
| Scheduler.Kernel.FindReady | kernel/src/interrupts.rs:144-152 | the loop computes the pick |
| Scheduler.Kernel.ScheduleNext | kernel/src/interrupts.rs:130-172 | the whole new scheduler state and the returned stack pointer, as the specification function gives them |
| Waiting.SwitchesIff | kernel/src/interrupts.rs:138-157 | a live task is switched away from if and only if the tick count is a multiple of max(priority, 1) and there is someone else; otherwise nothing changes |
| Scheduler.LockedListIsLeftAlone | kernel/src/interrupts.rs:133-134 | with TASK_LIST locked or empty nothing is scheduled and nobody killed |
| Scheduler.Kernel.SwitchTo | kernel/src/interrupts.rs:157-166 | old RSP parked before the next one is read, current index, id and RSP0 set to the next task's |
| Scheduler.Kernel.PollKernelTasks | kernel/src/interrupts.rs:123-127 | the executor is drained unless its lock is taken; a task of TASK_LIST gets the state its registry entry ends with, and is Ready when it finished |
| Scheduler.Kernel.TimerHandlerInner | kernel/src/interrupts.rs:178-184 | drain the executor unless its lock is taken, then count the tick, then schedule; the executor is left as that drain leaves it |
| Scheduler.Kernel.FaultHandlerInner | kernel/src/interrupts.rs:187-206 | the running task is terminated, in the registry too if it is there, and a switch forced |
| Scheduler.Kernel.DeviceHandlerInner | kernel/src/interrupts.rs:208-230 | forwards the byte to INIT_MAILBOX unless that is held, drains the executor, and returns to where it came from |
| Scheduler.Kernel.SysExitCall | kernel/src/syscall/mod.rs:102-111 | terminates the registered task with the caller's id, if any, whether or not it is in TASK_LIST, and no other |
| Scheduler.Kernel.SysSetPriorityCall | kernel/src/syscall/mod.rs:165-173 | sets the priority of the registered task with the caller's id, whether or not it is in TASK_LIST, and no other; 0 exactly when there is one |
| Scheduler.Kernel.SysSendCall | kernel/src/syscall/mod.rs:114-141 | the executor's send, and its effect on the states of the tasks that TASK_LIST shares with the registry |
| Scheduler.Kernel.SysRegisterServiceCall | kernel/src/syscall/mod.rs:176-180 | publishes the service for CURRENT_TASK_ID and changes nothing else |
| Scheduler.Kernel.constructor | kernel/src/main.rs:115-122 | ignition makes the first process current in index, id and RSP0 |
| Virtualisation.StepKeeps | kernel/src/interrupts.rs:42-172 | every allowed event keeps the invariant: RSP0 is the running task's stack top, the processor holds its context, every other live task's frame is intact on its own stack, the caller's id is 0 or its own |
| Virtualisation.VirtualCpus | kernel/src/interrupts.rs:42-172 | after any run every live task's registers, RIP, CS, RFLAGS, RSP and SS are what its own steps alone would have left |
| Virtualisation.EntryKeepsOthers | kernel/src/gdt.rs:84-87 | no interrupt, with whatever its handler writes, touches another task's frame |
| Virtualisation.ScheduleResumes | kernel/src/interrupts.rs:130-172 | the stack pointer `schedule_next` returns is a complete frame of the task that is now current |
| Virtualisation.FaultLeavesTheDeadIff | kernel/src/interrupts.rs:187-206 | a fault ends in a live task if and only if some task is Ready or the plain successor is alive |
| Virtualisation.FaultReturnsIff | kernel/src/interrupts.rs:194-195 | a fault returns to the faulting task if and only if it is the only task, which then gets its identity back |
| Virtualisation.LoneFaultJumpsToErrorCode | kernel/src/interrupts.rs:187-206 | in a TASK_LIST of one, which only a different boot would build, a fault resumes at its error code with every later word shifted |
| Virtualisation.SwitchLeavesTheDead | kernel/src/interrupts.rs:143-168 | after a tick or a fault the running task is alive, and nobody was revived |
| Virtualisation.DeadStayDead | kernel/src/interrupts.rs:142-168 | over any run in which drains and sends revive nobody, a dead task that is not running stays dead and executes nothing; WholeKernel discharges the condition |
| Virtualisation.DeadFrameStays | kernel/src/interrupts.rs:142-168 | the frame of a dead task stays intact on its stack over every run |
| Virtualisation.FaultFallsThrough | kernel/src/interrupts.rs:144-166 | a fault with nobody Ready resumes the plain successor from whatever frame it has, alive or not |
| Virtualisation.SecondFaultResumesTheDead | kernel/src/interrupts.rs:186-206 | after a fault and any run, a fault with nobody left to run and the dead task next in line runs that one again, from its error code |
| Virtualisation.SecondOfTwoFaultsResumesTheFirst | kernel/src/main.rs:76-80 | with two processes this is what the second fault always does, whatever happened in between |
| Virtualisation.TwoFaultsFromBoot | kernel/src/main.rs:76-80 | with both processes Ready, as the boot leaves them, two faults in a row do it |
| Virtualisation.CallersActForThemselves | kernel/src/syscall/mod.rs:102-180 | exit, set-priority and service registration touch no other process and register only 0 or the caller's own id |
| Virtualisation.RegisterPublishesCaller | kernel/src/syscall/mod.rs:176-180 | a service is published for the running process, or for id 0 after a drain, and no other service changes |
| Virtualisation.StepIdentifies | kernel/src/interrupts.rs:157-159 | after every step the caller's id is the new task's if the step switched, else 0 if it drained, else what it was |
| Virtualisation.NobodyUntilSwitch | kernel/src/task/executor.rs:82-83 | over any run without a switch an id of 0 stays 0 |
| Virtualisation.ExitEndsCallerIff | kernel/src/syscall/mod.rs:102-111 | exit ends the caller if and only if its identity has not been reset and it is registered |
| Virtualisation.SetPriorityAppliesIff | kernel/src/syscall/mod.rs:165-173 | the priority changes, and 0 is returned, under exactly the same condition |
| Virtualisation.DrainSilencesCaller | kernel/src/task/executor.rs:82-83 | after a tick or device interrupt that drains and does not switch, and at every later state until a switch, the running process's exit and set-priority calls change nothing, the latter returns 1, and its services are published for id 0 |
| Waiting.SliceEnds | kernel/src/interrupts.rs:139-143 | of any p consecutive tick counts exactly one ends the slice, and it is p - t % p ahead; that is p exactly when p divides t |
| Waiting.TimerSwitchesWhenDue | kernel/src/interrupts.rs:178-184 | a timer tick counts one, and takes the processor from a task that is alive after it if and only if the new count is a multiple of max(priority, 1) and there is someone else |
| Waiting.KeepsItsSlice | kernel/src/interrupts.rs:138-143 | over any run without a fault a live task of unchanged priority p is running until the tick count meets the next multiple of max(p, 1) |
| Waiting.NoneDueIff | kernel/src/interrupts.rs:139-143 | that is for max(p, 1) - t % max(p, 1) ticks, less one |
| Waiting.SwitchShortensWait | kernel/src/interrupts.rs:142-168 | a switch strictly lowers the cyclic distance to a Ready task and uses up the slices it passes |
| Waiting.StepShortensWait | kernel/src/interrupts.rs:138-184 | no event lengthens the wait of a Ready task, and every tick shortens it |
| Waiting.BoundedWaiting | kernel/src/interrupts.rs:138-168 | a task that stays Ready is dispatched within the sum of max(priority, 1) over the others, in ticks, whatever else happens |
| WholeKernel.DrainIsAllowed | kernel/src/interrupts.rs:123-127 | the executor's drain does to TASK_LIST only what the machine allows a drain, and leaves both sides agreed on every shared task |
| WholeKernel.SendIsAllowed | kernel/src/syscall/mod.rs:124-136 | so does every send |
| WholeKernel.StepKeepsLinked | kernel/src/task/mod.rs:144-148 | after every event both sides have the same registry, current id, and states and priorities of shared tasks |
| WholeKernel.RunIsMachineRun | kernel/src/interrupts.rs:178-230 | every run of the whole kernel is an allowed run of the machine |
| WholeKernel.KernelVirtualCpus | kernel/src/interrupts.rs:42-172 | CPU virtualisation over every run, with nothing assumed of drains and sends |
| WholeKernel.KernelDeadStayDead | kernel/src/interrupts.rs:142-168 | a dead task that is not running stays dead and executes nothing, with nothing assumed of drains and sends |
| WholeKernel.KernelTerminatedForever | kernel/src/task/executor.rs:57-59 | no interrupt and no system call revives a dead task of the registry |
| WholeKernel.KernelNoWakeLost | kernel/src/task/executor.rs:48-84 | the one-token protocol over every run of interrupts, faults and system calls; no push ever fails |
| WholeKernel.KernelDelivers | kernel/src/interrupts.rs:123-127 | in every run with a draining interrupt a task with a message waiting receives it, or a newer one instead, unless it finished or was killed |
| WholeKernel.SendFails | kernel/src/syscall/mod.rs:119-140 | a SYS_SEND with a low pointer returns 2 and one to an unknown target 1 in RAX, and nothing else changes |
| WholeKernel.SendStores | kernel/src/syscall/mod.rs:123-137 | one to a registered target returns 0, the message waits in its mailbox, and a blocked target is Ready and queued |
| WholeKernel.SentArrives | kernel/src/syscall/mod.rs:123-137 | from the call to the receipt: in every run after it with a draining interrupt the target receives the message, or a newer one instead, unless it finished or was killed |
| WholeKernel.KernelCompletedForever | kernel/src/task/executor.rs:71-75 | a completed task is gone from the registry for every run, so that sends to it fail |
| WholeKernel.MonitorFinishes | kernel/src/main.rs:85-87 | the first drain after the boot finishes the monitor task and leaves executor and registry empty |
| WholeKernel.TimerInterrupt | kernel/src/interrupts.rs:42-69 | wrapper, imperative timer handler and executor together perform exactly the kernel's timer step |
| WholeKernel.FaultInterrupt | kernel/src/interrupts.rs:72-73 | the same for the two fault wrappers |
| WholeKernel.DeviceInterrupt | kernel/src/interrupts.rs:70-71 | the same for the keyboard and serial wrappers |
| WholeKernel.IdentityCall | kernel/src/syscall/mod.rs:102-180 | exit, set-priority and service publication have exactly the effect of the kernel's steps |
| WholeKernel.SendCall | kernel/src/syscall/mod.rs:114-141 | so has SYS_SEND, on both sides |
| WholeKernel.ReceiveCall | kernel/src/syscall/mod.rs:144-155 | so has SYS_RECV, which hands out the message the mailbox held |
| WholeKernel.KernelMain | kernel/src/main.rs:64-140 | process creation, spawning and ignition establish every invariant; both processes are Ready and start at the entry point, each on its own stack |
| Mailbox.EveryRunTraced | kernel/src/syscall/mod.rs:126-127 | received messages are an in-order, duplicate-free subsequence of the stored ones; stored = received + overwritten + pending |
| Mailbox.InitMailbox.Forward | kernel/src/interrupts.rs:208-230 | the byte becomes the pending message unless the mailbox is held, and the mailbox law is kept |
| Mailbox.InitMailbox.Receive | kernel/src/syscall/mod.rs:144-155 | 1 and the pending message, taken, or 0 |
| AsyncExecutor.WorkStep | kernel/src/task/executor.rs:51-80 | changing one task changes the total work by exactly that task's difference |
| AsyncExecutor.PollWorks | kernel/src/task/executor.rs:70-79 | a poll keeps the tables and spends work unless the future has finished |
| AsyncExecutor.RoundWorks | kernel/src/task/executor.rs:51-80 | every round of the drain lowers (work left, queue length), for any futures; with it the drain is defined for every state |
| AsyncExecutor.Executor.RunReadyTasks | kernel/src/task/executor.rs:48-84 | the loop terminates and computes the drain, ending with CURRENT_TASK_ID 0; every task object that left the registry is Ready |
| AsyncExecutor.Executor.RunRound | kernel/src/task/executor.rs:51-80 | one round on the shared task objects: skip, poll, or poll and remove from all three tables, registry included (`Tokens.RoundPolls`, `Tokens.RunSameTasks`) |
| AsyncExecutor.Executor.PollReceive | kernel/src/task/mod.rs:169-180 | takes the message and stays Ready, or stores the waker of whoever polls and blocks |
| AsyncExecutor.Executor.Send | kernel/src/syscall/mod.rs:124-136 | stores the message and, when the target is blocked, makes it Ready, takes its waker and pushes its token |
| AsyncExecutor.Executor.SendCall | kernel/src/syscall/mod.rs:114-141 | the imperative call has the effect and result that `Tokens.SendResult` gives |
| AsyncExecutor.Executor.WakeTask | kernel/src/task/executor.rs:115-117 | pushes the token, or drops it when the queue is full |
| AsyncExecutor.Executor.SpawnTask | kernel/src/task/executor.rs:37-44 | the imperative call has the effect that `Tokens.SpawnResult` gives, or ends in one of its two panics |
| Tokens.SpawnResult | kernel/src/task/executor.rs:37-44 | panics exactly on a known id or a queue of 100; otherwise the task is Ready in executor and registry, its token last in the queue, and no other task changes |
| Tokens.SendResult | kernel/src/syscall/mod.rs:114-141 | 2 below user space and 1 for an unknown target, with nothing changed; otherwise 0, the message is the target's pending and latest one, a blocked target is Ready and queued last, and no other task changes |
| Tokens.FutureSends | kernel/src/syscall/mod.rs:126-136 | a future's own send does the same |
| Tokens.SendWakes | kernel/src/syscall/mod.rs:124-136 | a send keeps the one-token protocol, whatever the futures; a blocked target ends up Ready with its token at the end of the queue, no wake-up lost |
| Tokens.WokenTakesLatest | kernel/src/task/mod.rs:170-173 | the woken task's next poll takes that message and goes on |
| Tokens.ActTokens | kernel/src/task/mod.rs:169-180 | each receive or send of the polled task keeps the protocol; an empty receive puts it to sleep wakeably |
| Tokens.ActKeepsProtocolIff | kernel/src/task/executor.rs:115-117 | of all actions of a future, receives and sends always keep the protocol, a bare Pending never does, and a wake through a cloned waker does if and only if its target is a dead task of the executor without a token |
| Tokens.DrainTokens | kernel/src/task/executor.rs:48-84 | a drain keeps the protocol, loses no wake-up, and leaves every task dead or asleep with an empty mailbox |
| Tokens.DrainEvolves | kernel/src/task/executor.rs:51-80 | for any futures: a drain puts nothing into the registry, kills and revives nobody, and a waiting message waits on or the first one received is that one or a newer one |
| Tokens.DrainDelivers | kernel/src/task/executor.rs:48-84 | a live task with a message waiting has received, by the end of the next drain, that message or a newer one first, or has finished |
| Tokens.NoWakeLost | kernel/src/task/executor.rs:37-84 | over every run with receive-only futures and at most 100 tasks alive: no spawn panics, no push fails, one token per Ready task, none per blocked one |
| Tokens.ClonedWakersDuplicateTokens | kernel/src/task/executor.rs:115-117 | an input on which it fails: a future that wakes itself through a cloned waker sleeps with a token queued |
| Tokens.StepTables | kernel/src/task/mod.rs:40-45 | the tables agree after every step of any futures, and spawn never meets a known id |
| Tokens.RunTables | kernel/src/task/executor.rs:37-80 | the same over whole runs, with the mailbox law for every task |
| Tokens.RunSameTasks | kernel/src/task/executor.rs:39-75 | executor and registry hold the same tasks after every run: spawn enters a task into both, completion removes it from both |
| Tokens.DrainKeepsTerminated | kernel/src/task/executor.rs:57-59 | no drain revives a terminated task |
| Tokens.TerminatedForever | kernel/src/syscall/mod.rs:130-132 | no run does |
| Tokens.RoundPolls | kernel/src/task/executor.rs:51-80 | a round makes the task whose token it takes current if it is Ready and still there, and leaves it with a cached waker or out of all three tables; otherwise it only consumes the token |
| Tokens.DrainPolls | kernel/src/task/executor.rs:51-62 | a drain polls only tasks that the executor had when it began |
| Tokens.CompletedForever | kernel/src/task/executor.rs:71-75 | over any run, with however many stale tokens, no drain polls a completed id or makes it current, it never comes back to executor or registry, and a send to it returns 1 |
| IpcSteps.StepKeeps | kernel/src/task/mod.rs:169-180 | every single step of receiver, senders and killers on the mailbox and state locks and what they protect keeps the protocol invariant |
| IpcSteps.NoLostWakeUp | kernel/src/syscall/mod.rs:123-137 | under every interleaving, with the mailbox lock free: blocked implies empty mailbox, stored waker and no token; Ready implies exactly one token or poll |
| IpcSteps.NextPollTakesLatest | kernel/src/task/mod.rs:169-173 | from any state with a message waiting and under every interleaving: nothing more has been received and a message still waits, or the first one received was the latest stored by then |
| IpcSteps.MessageCanBeTakenIff | kernel/src/task/mod.rs:169-173 | a waiting message can still be received if and only if the future has not finished and the task is not dead outside a poll |
| IpcSteps.MessageIsTaken | kernel/src/syscall/mod.rs:123-137 | then at most twelve steps of the executor and of the send in progress, in any reachable state, have it received |
| IpcSteps.SenderRefinesDeliver | kernel/src/syscall/mod.rs:123-137 | a sender's lock steps, undisturbed, have exactly the effect of the executor's atomic send and leave no lock held |
| IpcSteps.ReceiverRefinesAct | kernel/src/task/mod.rs:169-180 | the receive future's lock steps, undisturbed, have exactly the effect of the executor's atomic receive |
| IpcSteps.KillOutsidePollIsFinal | kernel/src/interrupts.rs:192 | a task killed while it is not being polled stays dead under every interleaving |
| IpcSteps.KillDuringPollIsUndone | kernel/src/task/mod.rs:172-177 | a task killed during a poll can come back, from every such state |
| IpcSteps.KillIsFinalIff | kernel/src/task/mod.rs:169-180 | a kill stays final under every interleaving if and only if the task is not between the executor's check and the end of its poll |
| IpcSteps.KillDuringPollIsOverwritten | kernel/src/task/mod.rs:177 | an input on which it fails: a fresh task killed while its first poll finds the mailbox empty ends up Blocked |
| Keyboard.NeverSleepsOnData | kernel/src/task/keyboard.rs:15-57 | under every interleaving a pending consumer with queued codes is woken or about to be, and codes stay in order |
| Keyboard.PushAccepts | kernel/src/task/keyboard.rs:15-23 | a code is queued behind all others, and its wake due, exactly while fewer than 100 wait; otherwise nothing changes |
| Keyboard.SleeperDelivers | kernel/src/task/keyboard.rs:41-57 | once the producers finish, its next poll delivers the oldest code |
| Keyboard.ScancodeStream.AddScancode | kernel/src/task/keyboard.rs:15-23 | push then wake, or drop without waking when full |
| Keyboard.ScancodeStream.PollNext | kernel/src/task/keyboard.rs:41-57 | with interrupts between its operations: the oldest code at either pop, or Pending with the waker registered exactly when there is none |
| LockOrder.StepKeeps | kernel/src/syscall/mod.rs:123-135 | lock steps keep the ranking discipline and mutual exclusion, with shared readers |
| LockOrder.ChaseToMover | kernel/src/task/executor.rs:48-80 | from any blocked agent the chain of lock holders leads to one that can step |
| LockOrder.OpDisciplined | kernel/src/interrupts.rs:123-230 | spawn, send, exit, set-priority, receive, print, service publication and lookup, timer, device, fault and enlisting acquire locks along the ranking, for all outcomes and any calls into the allocator |
| LockOrder.OpHolds | kernel/src/syscall/mod.rs:123-135 | every operation holds, at once, the locks of the data it works on: a send the registry, its target's mailbox and state, and the waker slot when it wakes; a receive its mailbox with waker or state; a poll the executor and the future; and so on |
| LockOrder.NoDeadlock | kernel/src/syscall/mod.rs:93-194 | any number of agents running any of these operations: while one is unfinished some agent can step, and runs are bounded by the work |
| LockOrder.OwnersExclude | kernel/src/syscall/mod.rs:126-130 | in every reachable state the owner of a lock is alone with it, so two sends to one target are never both between store and wake |
| Frames.UsableFramesPlaced | kernel/src/mem.rs:29-40 | over a well-placed memory map the frames are distinct, inside usable memory, one per 4096 usable bytes |
| Frames.AllocationsDistinct | kernel/src/mem.rs:45-51 | no two calls get the same frame; the j-th call succeeds exactly while usable pages remain |
| Frames.BootInfoFrameAllocator.NthUsableFrame | kernel/src/mem.rs:29-47 | walking the regions finds the n-th element of the concatenated frames, or none |
| Frames.BootInfoFrameAllocator.AllocateFrame | kernel/src/mem.rs:45-51 | the k-th call yields the k-th usable frame and advances, also after exhaustion |
| Frames.CursorRefinesNth | kernel/src/mem.rs:45-51 | over any number of calls an incremental region cursor started at the beginning yields the same frames, and None from the same call on |
| Paging.StoreIsLocal | kernel/src/loader.rs:47-54 | a write through one virtual address changes no other |
| Paging.TableWritesInvisible | kernel/src/loader.rs:42 | whatever the mapper writes into page tables is seen through no mapped page |
| Paging.Mapper.MapTo | kernel/src/loader.rs:40-45 | maps a free page to the frame, or fails because the page is taken or the allocator exhausted; it takes up to one table frame a level; nothing mapped before changes |
| Paging.Mapper.MapPages | kernel/src/main.rs:151-155 | maps the whole range onto fresh frames; fails over a taken page only if one was taken, and for want of frames only if there are none left; takes at most one frame a page and one a level for its tables |
| Loader.LoadSegment | kernel/src/loader.rs:20-62 | file bytes, then zeros, read back through the map; final write permission is the segment's; earlier memory unchanged; it fails only on an address underflow, a taken page or an exhausted allocator, and takes no more frames than pages and tables need |
| Loader.LoadElf | kernel/src/loader.rs:4-18 | all loadable segments at once, on disjoint pages; each panic has its cause: a real clash, a segment without an address, or no frames left; entry point returned |
| Loader.ProtectPages | kernel/src/loader.rs:56-61 | flags of exactly the segment's pages change, and no byte does |
| Loader.SetupUserStack | kernel/src/main.rs:143-158 | the stack is mapped user-writable from base to top, on pages that were free; it fails only on a taken page or an exhausted allocator |
| Loader.LoadedPageIsBothIff | kernel/src/loader.rs:34-60 | a loaded page is open to user mode, writable if and only if its segment is, and writable and executable at once if and only if its segment is writable |
| Loader.HeaderHonouredIff | kernel/src/loader.rs:34-37 | a segment's pages get the permissions its header asks for if and only if it asks for execution |
| Loader.ImageIsWriteXorExecuteIff | kernel/src/loader.rs:56-61 | the loaded image obeys W^X if and only if no non-empty loadable segment is writable |
| Loader.StackPageIsBoth | kernel/src/main.rs:150-155 | every page of a user stack is open to user mode and can be written and executed |
| Loader.HeapPageIsKernels | kernel/src/allocator.rs:39-44 | every page of the 100 KiB heap is writable and closed to user mode |
| Loader.SegmentPagesIff | kernel/src/loader.rs:31-39 | a page is mapped for a non-empty segment if and only if some byte of the segment lies on it |
| Loader.LoadedBytes | kernel/src/loader.rs:47-54 | byte k of a loaded segment is byte offset + k of the file up to the file size, and zero from there to the memory size |
| Loader.InitHeap | kernel/src/allocator.rs:21-55 | every heap address is mapped writable and closed to user mode; it fails only on a taken page or an exhausted allocator |
| Loader.BootMemory | kernel/src/main.rs:46-73 | unless the frames run out, the boot gets through if and only if no two parts of it want the same page and none wants a taken one; then heap, image with its permissions and both stacks are all in place, with no two pages sharing a frame; W^X does not hold |
| Loader.WritesStayInTheirRange | kernel/src/main.rs:142-158 | any run of writes through one range of pages changes no byte outside it and no page table |
| Loader.BootLoaderHandsOver | kernel/src/mem.rs:19-26 | a well-placed memory map and a clean initial page map start the boot inside the invariant |

## Left out

- Hardware effects without modelled state: port I/O, PIC end-of-interrupt, UART set-up, MSR writes, descriptor encoding, printing.
- Library internals: page-table walking, the heap allocator, ELF parsing, the bounded queue and the atomic waker are an abstract page map that takes any number of table frames up to one a level, fresh disjoint stack blocks, a list of headers, a bounded sequence and an atomic optional slot.
- The physical-memory window: the boot loader's offset mapping aliases all frames and is not part of the page map.
- Address canonicality checks of virtual addresses, and 64-bit wrap-around of ticks, ids and addresses: unbounded integers instead.
- SYS_YIELD's halt inside ring 0: an atomic call; a frame on the user stack has no place in the machine.
- System calls push onto the user stack: the machine takes them as one step, `Trap.SyscallIsTransparent` covers the pushes.
- Kernel stack overflow: a handler's own frames are assumed to fit below the saved frame on its 16 KiB or 32 KiB stack.
- Faults inside the kernel, double faults, and the time between enabling interrupts and the first IRETQ.
- Pointer validation beyond SYS_SEND's comparison, and protection of user memory.
- The lookup in the service registry, and SYS_PRINT: calls without effect on the modelled state, except for their locks.
- `sleep_if_idle` and `Executor::run`: not used once the processes run.
- AsyncExecutor.Act: a future receives from its own task's mailbox; a receive future polled by another task is not covered.
- IpcSteps.StepKeeps: the registry and waker locks are not steps of their own; every access to the waker is under the mailbox lock.
- Virtualisation.DeadStayDead: drains and sends are events that revive nobody; `WholeKernel.KernelDeadStayDead` does without.
- IpcSteps.NoLostWakeUp: pushes always find room; that they do is `Tokens.NoWakeLost`.
- Kernel tasks created by `Task::new` have no initial frame, so the machine runs processes only, as TASK_LIST does.
- `kernel/src/process.rs`, the common crate, the user programs, the runner and the keyboard demo task: unused types, stubs and launchers.
