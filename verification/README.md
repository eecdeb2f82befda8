# A verified model of the pinion64 core

Pinion64 is a small x86_64 kernel core: threads, interrupt taps, page tables and the allocators
beneath them. This project models that core in Dafny and proves what it keeps. Arithmetic is unbounded
unless a width matters, and then the width is written out.

## How it is laid out

Threads, scheduling and interrupts
- `Threads.dfy` is the thread life cycle as a state machine over values: the run queue and the three
  fault and zombie lists are sequences, an API call with its trailing yield is one step, and so are a timer
  tick and a fault. `Enabled` states the guards: what the kernel expects of its clients. Two history fields
  record taps whose route was full and how often the idle TCB was injected.
- `ThreadInvariants.dfy`, `ThreadSteps.dfy` and `TapSteps.dfy` build up to `TapSteps.StepKeeps`: every
  guarded step keeps the invariant.
- `ThreadEffects.dfy` says completely what each step does, without the functions that compute it, and
  `ThreadStates.dfy` draws the state diagram from that.
- `ThreadTheorems.dfy` states further results over whole runs; `ThreadGuards.dfy` shows that the guards
  are exactly right; `GuardInputs.dfy` has runs that lead to the calls they exclude; `Wakeups.dfy` is about
  what a thread that waits is told.
- `KernelMemory.dfy` is the code in its own form: head and tail pointers, one shared `next` link per TCB,
  routes of four slots, all updated in place, and proved to do what the state machine does.

Paging
- `PageTables.dfy` (entry words and indices; section 5.3 of the AMD64 Architecture Programmer's Manual,
  Volume 2), `PageTree.dfy` (the radix tree as a map), `PageMemory.dfy` (`page.c` in place, and the kernel
  window), `PageApi.dfy` (`page_set` and `page_get`), `PageRights.dfy` (what the processor then allows).

Memory
- `Spinlock.dfy` (the bump allocator under its lock, one memory access a step), `FreeLists.dfy`,
  `TcbTable.dfy`, `MemoryMap.dfy`.

Configuration text
- `ConfigText.dfy` (what the parser recognises), `ConfigRoundTrip.dfy`, `ConfigMemory.dfy` (the parser in
  place), `ConfigLookup.dfy`, `ConfigCut.dfy` (files that end in the middle of a line), `Hex.dfy`.

## Where the code does not do what it says

- `page_set` computes the hardware flags and then passes on the unconverted ones (page_set.c:89). The model
  passes the converted flags. `PageApi.ShippedRegion` says exactly where the shipped call reads back right;
  `PageApi.ShippedInputs` has an ordinary request that never does, and one that does.
- `page_set` documents that a failed call changes no mapping. It remaps the pages before the failing one;
  `PageApi.FailedPageSetChanges` says exactly when that is no change, `PageApi.FailedPageSetInput` is a call
  that does change one.
- A frame with bit 63 set turns into a no-execute page somewhere else (page.c:173). `PageApi.PageSetMaps`
  says exactly which offsets of a region are affected.
- `interrupt_set_tap` passes the old tap word with its fired flag to the route removal
  (interrupt_set_tap.c:34), which then indexes past the page table: exactly when `ThreadGuards.StaleTapWord`
  says, and in the run of `GuardInputs.StaleWordInput`. The model passes the 14-bit vector.
- `interrupt_set_tap` does not look at the thread's other taps. `ThreadGuards.SetTapGuardExact` says exactly
  which calls give a thread a second slot of a route, `GuardInputs.SetTapInput` is one, and
  `ThreadGuards.SecondTapLosesSlot` shows the harm of others.
- `thread_resume` and `thread_reap` do not look at the fault and zombie lists. `ThreadGuards.ResumeGuardExact`
  and `ThreadGuards.ReapGuardExact` say exactly which calls break the lists or the routes;
  `GuardInputs.ResumeInput` and `GuardInputs.ReapInput` are runs up to such calls.
- `config_read` compares names up to a prefix; `ConfigLookup.ValueIsExact` says exactly when the value is that
  of the exact lookup, `ConfigLookup.PrefixFound` is an input for which it is not.
- `config_parse` takes the newline of a line of blanks for a word, and the line after it for the rest of a
  triple. `ConfigRoundTrip.ParserRoundTrip` says exactly when a file is parsed right,
  `ConfigRoundTrip.BlankLineInput` is one that is not.
- `config_parse` leaves a section without a property when the text ends behind it, and `config_read` may
  follow that null pointer. `ConfigCut.CutFile` says exactly which prefixes of a file leave one,
  `ConfigCut.NullPropertyInput` is a file that does.
- `pmm_alloc` tests the bump pointer for equality only; `Spinlock.NeverPassesLimit` says when that is enough.
- `pmm_init` bounds its loops by 6 and 16 entries while the arrays hold 3 and 8.
  `MemoryMap.OverrunExactly` says which maps overrun them, `MemoryMap.OverrunInput` is one.

## Model

| member | source | states |
|---|---|---|
| `ThreadInvariants.FireKeeps` | src/pinion64/interrupt_vector.c:88-128 | firing any vector keeps the core invariant, changes lists and states only by waking sleepers, clears no flag, and leaves every routed thread flagged |
| `ThreadSteps.VectorResetKeeps` | src/pinion64/init.c:82-101 | resetting a vector restores the level-triggered property: if a list has work, everyone routed on its vector is flagged again |
| `ThreadSteps.ScheduleKeeps` | src/pinion64/scheduler.c:78-100 | requeueing the active thread and loading the next one, or idle, re-establishes the whole invariant |
| `ThreadSteps.FaultKeeps` | src/pinion64/init.c:43-64 | unload, list, fire and reschedule on a fault keep the invariant; the faulting thread stays RUNNING |
| `ThreadSteps.ExitKeeps` | src/pinion64/api/thread_exit.c:18-25 | exit with its trailing yield keeps the invariant although the thread is briefly active and on the zombie list |
| `ThreadSteps.PauseKeeps` | src/pinion64/api/thread_pause.c:18-65 | pause, of oneself or another thread in any state, keeps the invariant |
| `ThreadSteps.ResumeKeeps` | src/pinion64/api/thread_resume.c:18-53 | resume of any thread that is not suspended on a fault or zombie list keeps the invariant |
| `ThreadSteps.WaitKeeps` | src/pinion64/api/interrupt_wait.c:18-30 | wait keeps the invariant: a thread goes to sleep only without a fired tap |
| `ThreadSteps.GetFaultKeeps` | src/pinion64/queues.c:29-35 | taking a thread off a list keeps the invariant |
| `ThreadSteps.CreateThreadKeeps` | src/pinion64/api/thread_create.c:18-29 | creating a suspended thread under the lowest free id keeps the invariant, and so does a failed creation |
| `ThreadSteps.ReapKeeps` | src/pinion64/api/thread_reap.c:18-33 | reap keeps the invariant unless it removes a thread that a list or a route slot names |
| `TapSteps.ReplaceRouting` | src/pinion64/api/interrupt_set_tap.c:31-38 | after the old route is dropped and the tap overwritten, routing is right everywhere except that the new tap is not routed yet |
| `TapSteps.SetTapKeeps` | src/pinion64/api/interrupt_set_tap.c:18-45 | set_tap keeps the invariant, including flags on a list that already has work, unless it puts an installed vector into a second tap |
| `TapSteps.ResetKeeps` | src/pinion64/api/interrupt_reset.c:18-34 | reset keeps the invariant: the flag comes back while the list has work |
| `TapSteps.StepKeeps` | src/pinion64/api.s:39-98 | every guarded step (API call with its yield, timer tick, fault) keeps the invariant |
| `TapSteps.InitialInv` | src/pinion64/init.c:150-168 | the state after initialisation satisfies the invariant |
| `TapSteps.RunKeeps` | src/pinion64/init.c:22-65 | the invariant holds after every legal run from a state that satisfies it |
| `ThreadEffects.FireEffect` | src/pinion64/interrupt_vector.c:88-128 | firing a vector, completely: the waiting threads of its route go to the tail of the run queue in slot order and are QUEUED, suspended-waiting ones become SUSPENDED, both with the vector as result; the first tap of each routed thread on it is flagged; nothing else changes |
| `ThreadEffects.ScheduleEffect` | src/pinion64/scheduler.c:78-100 | the scheduler, completely: the active thread joins the line last, the first of the line is loaded and RUNNING, idle is with an empty line; nothing else changes |
| `ThreadEffects.FaultEffect` | src/pinion64/init.c:43-64 | a CPU fault, completely: the active thread stands first on list 0 for a page fault and list 1 for any other, RUNNING and unloaded, that list's vector fires, the scheduler runs |
| `ThreadEffects.FaultTold` | src/pinion64/init.c:43-64 | after a fault everyone routed on its list's vector is flagged and the faulting thread is RUNNING, neither loaded nor queued |
| `ThreadEffects.ExitEffect` | src/pinion64/api/thread_exit.c:18-25 | exit, completely: the active thread is suspended and first on list 2, vector 0x82 fires, the scheduler runs |
| `ThreadEffects.GetFaultEffect` | src/pinion64/queues.c:29-35 | taking from list k takes its first thread and changes nothing else |
| `ThreadEffects.ListsChange` | src/pinion64/init.c:22-65 | which step changes which of the three lists and how: no other step changes any |
| `ThreadEffects.PauseEffect` | src/pinion64/api/thread_pause.c:18-65 | pause, completely: a waiting target waits suspended, any other is suspended and out of the run queue, whose order stays; then the scheduler runs |
| `ThreadEffects.ResumeEffect` | src/pinion64/api/thread_resume.c:18-53 | resume, completely: a suspended target is queued last, a suspended-waiting one waits; then the scheduler runs |
| `ThreadEffects.WaitEffect` | src/pinion64/api/interrupt_wait.c:18-30 | wait, completely: with a fired tap the thread only yields, without one it is WAITING and leaves the processor |
| `ThreadEffects.CreateEffect` | src/pinion64/api/thread_create.c:18-29 | create, completely: a suspended thread without taps under the lowest unused id, or nothing; then the scheduler runs |
| `ThreadEffects.ReapEffect` | src/pinion64/api/thread_reap.c:18-33 | reap removes exactly a suspended target and changes nothing else |
| `ThreadEffects.TargetMeaning` | src/pinion64/tcb.c:140-163 | ids count modulo 2^32, -1 is the calling thread, and 0 or anything from TCB_LIMIT on is nobody |
| `ThreadEffects.SetTapEffect` | src/pinion64/api/interrupt_set_tap.c:18-45 | set_tap, completely: the tap is replaced unfired, the thread leaves the old route and takes the first free slot of the new one, and the vector fires exactly if its list has work |
| `ThreadEffects.ResetEffect` | src/pinion64/api/interrupt_reset.c:18-34 | reset, completely: the first tap on the vector is cleared, and the vector fires exactly if its list has work; without such a tap nothing changes |
| `ThreadEffects.ResetFlag` | src/pinion64/api/interrupt_reset.c:22-33 | with work on the list the reset tap is fired afterwards exactly if the thread has a slot of the route |
| `ThreadEffects.ResetThenWait` | src/pinion64/api/interrupt_wait.c:18-30 | a wait after the reset of the only fired tap, with no work on its list, puts the thread to sleep |
| `ThreadStates.StateDiagram` | src/pinion64/internal.h:359-365 | every step moves every thread that is not loaded along the state diagram: only a pause stops it, only a resume or a fired tap sets it going again |
| `ThreadStates.ActiveDiagram` | src/pinion64/init.c:22-65 | what becomes of the loaded thread in every step: loaded or queued, waiting, suspended, or RUNNING and unloaded |
| `ThreadStates.PauseStops` | src/pinion64/api/thread_pause.c:31-62 | after a pause its target is neither loaded nor queued, SUSPENDEDWAITING exactly if it waited and SUSPENDED otherwise |
| `ThreadStates.PausedStays` | src/pinion64/api/thread_pause.c:31-62 | in every run a paused thread stays suspended, unloaded and off the run queue until it is resumed or reaped, whatever fires at it |
| `ThreadStates.WaiterStep` | src/pinion64/interrupt_vector.c:107-119 | a waiting or queued thread that a step does not pause is waiting, queued or loaded after it |
| `ThreadStates.WaitersLive` | src/pinion64/interrupt_vector.c:107-119 | in every run a waiting or queued thread stays so until it is loaded or paused: no wakeup loses it |
| `ThreadTheorems.ListsDisjointInEveryRun` | src/pinion64/internal.h:398-399 | in every reachable state run queue, three lists and active slot together name no thread twice, name live threads only, and QUEUED means on the run queue |
| `ThreadTheorems.TicksLegal` | src/pinion64/init.c:24-30 | the timer can always tick: any number of ticks is a legal run from every state of the invariant |
| `ThreadTheorems.NoLostWakeup` | src/pinion64/interrupt_vector.c:98-126 | in every reachable state no sleeper has a fired tap, and while a list has work everyone routed on its vector is flagged and awake |
| `ThreadTheorems.DroppedStep` | src/pinion64/interrupt_vector.c:48-57 | a tap is left unrouted only by a set_tap that found all four slots held by other threads |
| `ThreadTheorems.RoutesMatchTapsInEveryRun` | src/pinion64/interrupt_vector.c:42-74 | in every reachable state a routed thread holds the vector and one slot of it, and for a tap on an installed vector without a slot some set_tap found all four slots held by others and ever since the thread has held the vector without one |
| `ThreadTheorems.IdleInjectedOnce` | src/pinion64/scheduler.c:94-99 | the idle branch is taken at most once in a run; afterwards idle is active or queued |
| `ThreadTheorems.ScheduleWithin` | src/pinion64/scheduler.c:78-100 | one call of the scheduler loads a queued thread or moves it one place forward |
| `ThreadTheorems.StepWithin` | src/pinion64/scheduler.c:20-74 | no step of any kind moves a queued thread back, unless it pauses that thread |
| `ThreadTheorems.RoundRobin` | src/pinion64/scheduler.c:78-100 | a thread at index k that nobody pauses is loaded within k+1 calls of the scheduler, whatever else happens in between |
| `ThreadGuards.ResumeGuardExact` | src/pinion64/api/thread_resume.c:31-37 | resume keeps the invariant exactly when its target is not suspended while still on a fault or zombie list |
| `ThreadGuards.ReapGuardExact` | src/pinion64/api/thread_reap.c:26-30 | reap keeps the invariant exactly when the suspended target is on no list and in no route slot |
| `ThreadGuards.ReapDiscipline` | src/pinion64/api/thread_reap.c:26-30 | a client that reaps only threads on no list and without taps meets that guard |
| `ThreadGuards.SetTapGuardExact` | src/pinion64/api/interrupt_set_tap.c:18-45 | after any set_tap every routed thread holds the vector and has one slot of its route, exactly unless it taps a vector a second time while it has a slot of it and another slot is free |
| `ThreadGuards.SetTapKeepsExactly` | src/pinion64/api/interrupt_set_tap.c:18-45 | the whole invariant, which allows no installed vector in two taps, is kept exactly when the call does not put one there |
| `ThreadGuards.SecondTapLosesSlot` | src/pinion64/api/interrupt_set_tap.c:31-38 | why also a second tap without a second slot is excluded: on a full route, clearing it takes the slot of the first tap away |
| `ThreadGuards.StaleTapWord` | src/pinion64/api/interrupt_set_tap.c:32-35 | in every reachable state replacing a tap hands the route removal a word beyond the 128-entry page table exactly when that tap holds a vector and has fired |
| `GuardInputs.ResumeInput` | src/pinion64/api/thread_resume.c:31-37 | a legal run after which resuming an exited thread breaks the invariant |
| `GuardInputs.ReapInput` | src/pinion64/api/thread_reap.c:26-30 | a legal run after which reaping a routed thread breaks the invariant |
| `GuardInputs.SetTapInput` | src/pinion64/api/interrupt_set_tap.c:37-41 | a legal run after which a second tap on one vector puts the thread into two slots |
| `GuardInputs.StaleWordInput` | src/pinion64/api/interrupt_set_tap.c:32-35 | a legal run after which a legal set_tap passes a word beyond the page table |
| `Wakeups.StepWakesWith` | src/pinion64/interrupt_vector.c:103-125 | a step that wakes a sleeping thread hands it, as the result of its wait, a vector on which it holds a fired tap; a step leaves what a thread that is not running was told as it is |
| `Wakeups.WaitReturnsFired` | src/pinion64/api/interrupt_wait.c:18-30 | in every run, from the step that wakes a thread until it is loaded or reaped, its result stays that vector and the tap stays fired |
| `KernelMemory.Kernel.constructor` | src/pinion64/init.c:150-168 | the static variables start as the initial state of the state machine |
| `KernelMemory.LinkedRemove` | src/pinion64/scheduler.c:63-70 | redirecting the predecessor's link removes exactly one element from the linked list |
| `KernelMemory.Kernel.PushTcb` | src/pinion64/scheduler.c:20-30 | push appends at the tail; tail is the last node; the three other lists sharing the links are untouched |
| `KernelMemory.Kernel.PullTcb` | src/pinion64/scheduler.c:32-45 | pull removes and returns the first thread, or null; tail becomes null with the last one |
| `KernelMemory.Kernel.RemTcb` | src/pinion64/scheduler.c:52-74 | removes exactly the given thread keeping the others' order and returns 0, or returns 1 and changes nothing, not even a link |
| `KernelMemory.Kernel.FindPredecessor` | src/pinion64/scheduler.c:63-64 | the walk stops at the element in front of the thread, or proves it is not queued |
| `KernelMemory.Kernel.SchedulerSchedule` | src/pinion64/scheduler.c:78-100 | the linked scheduler does what the abstract one does, idle injection included |
| `KernelMemory.Kernel.QueueFault` | src/pinion64/queues.c:37-40 | puts the thread at the front of its list (last in, first out) without disturbing the other lists |
| `KernelMemory.Kernel.GetQueued` | src/pinion64/queues.c:29-35 | removes and returns the front of the list, or null with no change |
| `KernelMemory.Kernel.HasQueued` | src/pinion64/queues.c:25-27 | true exactly when the list is not empty |
| `KernelMemory.Kernel.InterruptAddRoute` | src/pinion64/interrupt_vector.c:42-59 | takes the first free slot of an installed vector's four, or changes no route |
| `KernelMemory.Kernel.InterruptRemoveRoute` | src/pinion64/interrupt_vector.c:61-74 | clears the thread's slot in the vector's route, if it has one |
| `KernelMemory.Kernel.NotifyTcb` | src/pinion64/interrupt_vector.c:103-125 | flags the first tap on the vector and wakes a waiting or suspended-waiting thread with the vector as result |
| `KernelMemory.Kernel.InterruptVectorFire` | src/pinion64/interrupt_vector.c:88-128 | the slot loop equals the abstract firing, the links staying valid through every wakeup |
| `KernelMemory.Kernel.InterruptVectorReset` | src/pinion64/interrupt_vector.c:76-86 | re-fires one of the three fault vectors exactly while its list is not empty |
| `KernelMemory.Kernel.ThreadCreate` | src/pinion64/api/thread_create.c:18-29 | the loop finds the lowest free id; the new thread is suspended and untapped, its id was unused and every lower id in use; id 0 and no change exactly without a TCB or a free id |
| `KernelMemory.Kernel.ThreadPause` | src/pinion64/api/thread_pause.c:18-65 | state transitions of pause, and its result |
| `KernelMemory.Kernel.ThreadResume` | src/pinion64/api/thread_resume.c:18-53 | state transitions of resume; true exactly for a suspended or suspended-waiting target |
| `KernelMemory.Kernel.ThreadReap` | src/pinion64/api/thread_reap.c:18-33 | removes exactly a suspended target; true exactly then |
| `KernelMemory.Kernel.ThreadExit` | src/pinion64/api/thread_exit.c:18-25 | suspends the active thread, lists it as zombie and fires the zombie vector |
| `KernelMemory.Kernel.InterruptSetTap` | src/pinion64/api/interrupt_set_tap.c:18-45 | false with no change for a bad index or bad low 16 bits of the vector; otherwise drop, replace, add and reset in this order with those 16 bits |
| `KernelMemory.Kernel.InterruptReset` | src/pinion64/api/interrupt_reset.c:18-34 | clears the first tap on the vector and resets the vector; nothing if no tap holds it |
| `KernelMemory.Kernel.InterruptWait` | src/pinion64/api/interrupt_wait.c:18-30 | returns the vector of the first fired tap at once, or makes the thread wait and returns 0 |
| `KernelMemory.Kernel.YieldIfStopped` | src/pinion64/init.c:32-41 | the yield with rdi 0: unloads the active thread unless it is running, then schedules |
| `KernelMemory.Kernel.ReportFault` | src/pinion64/init.c:43-64 | unload, list, fire, schedule, in this order, on the linked lists |
| `KernelMemory.Kernel.Fault` | src/pinion64/init.c:22-65 | dispatch on the interrupt number |
| `KernelMemory.Kernel.Perform` | src/pinion64/api.s:39-98 | one step of the in-place kernel equals one step of the state machine |
| `KernelMemory.Kernel.Handle` | src/pinion64/init.c:22-65 | any legal sequence of events run on the in-place kernel ends in the state the machine's run ends in, with the invariant and valid links |
| `PageWords.SamePageSameIdx` | src/pinion64/page.c:95-96 | two addresses use the same entry at every level exactly when they agree in bits 12 to 47 |
| `PageTree.SetFromTree` | src/pinion64/page.c:152-173 | setting an entry keeps the tables a tree in which no table is shared, and moves no table to another level |
| `PageTree.SetFromWalk` | src/pinion64/page.c:152-175 | the walk of every address from every table of a level is as before the call, except after a success through the set entry; so also after running out of frames |
| `PageTree.RefusedExactly` | src/pinion64/page.c:164-167 | the call is refused exactly when the walk ends in a large page, and then nothing was written |
| `PageTree.SetPageIsUpdate` | src/pinion64/page.c:143-176 | set_frame is a map update for any stock of frames: on success the page gets the new leaf (absent if not present), otherwise no page changes; every other page keeps translation and flags, the tree is kept, refusal happens exactly on a large page, and frames run out only with fewer than three left |
| `PageTree.SetPageTranslates` | src/pinion64/page.c:172-175 | after a success addr+o translates to frame+o with the given flags for all 4096 offsets, or to all ones and no flags for a non-present entry |
| `PageTree.SetPageAddsNoHugeLeaf` | src/pinion64/page.c:103-106 | no call creates a leaf above level 2, where the offset shift would not fit an int |
| `PageMemory.WindowInvertsVaddr` | src/pinion64/page.c:67-78 | walking the tables from pmm_vaddr(p) gives back p, for every p where it is not null |
| `PageMemory.VaddrVisible` | src/pinion64/page.c:67-78 | pmm_vaddr is null exactly outside the first 512 MiB and the open range from 0xE0000000 to 4 GiB |
| `PageMemory.VaddrInvertsWindow` | src/pinion64/page.c:67-78 | every window address but the first of the device half is pmm_vaddr of what it translates to |
| `PageMemory.SetPageKeepsWindow` | src/pinion64/page.c:164-167 | a call aimed at the kernel window is refused with no change; any other call leaves the window as it is |
| `PageMemory.WindowSurvives` | src/pinion64/page.c:67-78 | after any sequence of set_frame calls, of any length and with any outcomes, pmm_vaddr is still inverted by the walk |
| `PageMemory.SetPageKeepsLargeIsWindow` | src/pinion64/page.c:164-167 | large pages stay in the kernel window and nowhere else, and a call is refused exactly on a page of the window |
| `PageMemory.LargeSurvives` | src/pinion64/page.c:164-173 | after any sequence of set_frame calls the tables are a tree with large pages in the kernel window only |
| `PageMemory.InitTree` | src/pinion64/page.c:40-61 | the tables built by pcx_init form a tree without sharing |
| `PageMemory.InitWindow` | src/pinion64/page.c:50-61 | the tables built by pcx_init resolve every window address to its large page |
| `PageMemory.PageContext.constructor` | src/pinion64/page.c:32-65 | pcx_init's loops end in a tree with the kernel window mapped, large pages in that window only and no leaf above level 2 |
| `PageMemory.PageContext.GetTrans` | src/pinion64/page.c:89-112 | the walk loop returns frame plus offset of the leaf it ends at, or all ones |
| `PageMemory.PageContext.GetFlags` | src/pinion64/page.c:118-141 | the walk loop returns the flag bits of the leaf it ends at, or 0 |
| `PageMemory.PageContext.NewTable` | src/pinion64/page.c:155-162 | a missing entry gets a fresh zeroed table, valid, present, writable and open to users; nothing else changes |
| `PageMemory.PageContext.SetFrame` | src/pinion64/page.c:143-176 | unaligned requests return 1 unchanged; otherwise the loop does the tree update with the word frame|flags, for any frame and flags, unless the call runs out of frames |
| `PageRights.SetPageRights` | src/pinion64/page.c:152-173 | in the processor's terms: after a success with a present entry the page has exactly the entry's write and execute rights, and its user right in the lower half only; all other pages keep theirs, and all pages after a failure |
| `PageRights.InitRights` | src/pinion64/page.c:40-61 | the directories pcx_init builds leave write and execute rights everywhere and user rights in the lower half |
| `PageRights.RightsSurvive` | src/pinion64/page.c:152-173 | that stays so after any sequence of set_frame calls |
| `PageRights.WindowRights` | src/pinion64/page.c:50-61 | the kernel window is writable, executable, global and closed to users, and uncached exactly from its device half on |
| `PageRights.PageSetRights` | src/pinion64/api/page_set.c:67-94 | after a successful present page_set every address of the region has exactly the rights asked for, user access in the lower half only, execute access only with bit 63 of the physical address clear |
| `PageApi.FlagsRoundTrip` | src/pinion64/api/page_set.c:68-85 | decoding an encoded present flag combination gives back exactly its defined bits |
| `PageApi.EncodedBits` | src/pinion64/api/page_set.c:67-85 | which hardware bit stands for which flag of a present page |
| `PageApi.SetRegionIsUpdate` | src/pinion64/api/page_set.c:87-94 | after the page loop, however it ends, exactly the pages before the stopping point are remapped, all other pages are as before |
| `PageApi.SetRegionStops` | src/pinion64/api/page_set.c:87-92 | no page set lies in a large page, and the loop is refused exactly at a page that lies in one |
| `PageApi.PageSetMaps` | src/pinion64/api/page_set.c:34-38 | a successful present page_set over at most 2^48 bytes maps vbase+o to pbase+o with the defined flags for exactly the offsets at which bit 63 of the physical address is clear; however it ends it changes nothing outside |
| `PageApi.PageSetSucceeds` | src/pinion64/api/page_set.c:87-94 | a call that finds its frames succeeds exactly when no page of the region lies in a large page |
| `PageApi.StopsAtWindow` | src/pinion64/api/page_set.c:87-94 | in every paging context it succeeds exactly when the region ends below the kernel window, and otherwise stops at the window |
| `PageApi.FailedPageSetChanges` | src/pinion64/api/page_set.c:40-50 | the documented atomicity of a failed call holds exactly when every page from vbase up to the kernel window already had the mapping it was to be given |
| `PageApi.FailedPageSetInput` | src/pinion64/api/page_set.c:87-94 | two pages from the last one below the window: the call fails with the first page remapped |
| `PageApi.PageSet` | src/pinion64/api/page_set.c:55-95 | the call with converted flags equals the page loop of the model; unaligned arguments are rejected unchanged |
| `PageApi.PageGet` | src/pinion64/api/page_get.c:37-69 | returns translation and decoded flags of an address |
| `PageApi.ShippedRoundTrip` | src/pinion64/api/page_set.c:89 | a page set with the unconverted flags, as shipped, reads back what was asked for exactly when bit 63 of the frame is clear, the frame has the bits 12 to 62 of the flags set already, and the flag word encodes itself (EncodesItself lists the bits); for every present flag word |
| `PageApi.ShippedRegion` | src/pinion64/api/page_set.c:87-94 | for a whole region each offset is mapped as asked exactly when that condition holds of its page |
| `PageApi.ShippedPageSet` | src/pinion64/api/page_set.c:55-95 | the call as shipped equals the page loop with the unconverted flags |
| `PageApi.ShippedInputs` | src/pinion64/api/page_set.c:89 | the shipped call never reads back a read and execute mapping; flags 0x641 do, as they encode themselves and reach no frame bit |
| `Spinlock.StepKeeps` | src/pinion64/mutex.s:42-62 | each memory access of each processor keeps mutual exclusion and the bump pointer's history |
| `Spinlock.MutualExclusion` | src/pinion64/mutex.s:42-62 | for any number of processors and any interleaving at most one is between acquire and release, and the non-null results are one contiguous ascending range within the pool |
| `Spinlock.NeverPassesLimit` | src/pinion64/pmm.c:63-69 | in no interleaving the bump pointer passes its limit, exactly when it starts at or below it, a whole number of pages away |
| `FreeLists.ApplyKeeps` | src/pinion64/alloc.s:42-100 | one correct alloc or free keeps every pulled page with exactly one allocator, free once or held |
| `FreeLists.PagesConserved` | src/pinion64/alloc.s:42-100 | in every run of correct calls pages are conserved, an allocation returns a page nobody holds, and null exactly when list and pool are empty |
| `FreeLists.FreeThenAlloc` | src/pinion64/alloc.s:42-100 | a freed page is the next one allocated, and then everything is as before the free |
| `FreeLists.AllocTakes` | src/pinion64/alloc.s:42-82 | the pool is touched only when the allocator's own list is empty |
| `FreeLists.Allocators.PmmAlloc` | src/pinion64/pmm.c:58-74 | null exactly when the pool is exhausted; otherwise a page no allocator has, free or held, and the pulled pages are those before and this one |
| `FreeLists.Allocators.Alloc` | src/pinion64/alloc.s:42-82 | the retry loop over the intrusive list pops the head, pulling a page first if the list is empty |
| `FreeLists.Allocators.Free` | src/pinion64/alloc.s:84-100 | pushes the page on the intrusive list |
| `FreeLists.Allocators.ClientWrite` | src/pinion64/alloc.s:54-55 | overwriting the first word of a held page disturbs no free list |
| `TcbTable.SetSlotUpdates` | src/pinion64/tcb.c:71-72 | writing one slot of the two-level table is an update of the finite map at that id only |
| `TcbTable.LowestIsLowestFree` | src/pinion64/tcb.c:45-89 | the id found by the search is the one the thread state machine uses |
| `TcbTable.TcbDirectory.TryId` | src/pinion64/tcb.c:47-87 | one turn of the search: allocate a missing subtable, take an empty slot, or move on unchanged |
| `TcbTable.TcbDirectory.New` | src/pinion64/tcb.c:31-95 | stores the TCB under the lowest free id, or fails with the map unchanged, exactly for want of a TCB, an id or a subtable page |
| `TcbTable.TcbDirectory.Get` | src/pinion64/tcb.c:140-163 | the TCB stored under the id, or null |
| `TcbTable.TcbDirectory.Del` | src/pinion64/tcb.c:101-134 | frees exactly the id of the given live TCB |
| `TcbTable.IdsUnique` | src/pinion64/tcb.c:71-76 | two live ids never share a TCB |
| `TcbTable.TcbDirectory.GetOwnId` | src/pinion64/tcb.c:140-163 | looking up a live TCB's own id finds that TCB |
| `MemoryMap.SumTotal` | src/unfold/mmap.c:31-35 | the running sum is the total of all region sizes |
| `MemoryMap.CutoffIsLeast` | src/pinion64/pmm.c:86-88 | the cutoff is the least multiple of 8 MiB at or above a 256th of the total |
| `MemoryMap.CutoffBitsRoundUp` | src/pinion64/pmm.c:86-88 | the negate-mask-negate expression on 64-bit words gives a multiple of 2^23 less than 2^23 above total/256 |
| `MemoryMap.CutoffExpression` | src/pinion64/pmm.c:86-88 | for every 64-bit total the expression, as arithmetic modulo 2^64, is the cutoff |
| `MemoryMap.Sides` | src/pinion64/pmm.c:95-135 | low regions end at or below the cutoff, high regions start at or above it |
| `MemoryMap.Coverage` | src/pinion64/pmm.c:95-135 | every address of the map lies in exactly the part on its side of the cutoff, and no other address does |
| `MemoryMap.SizesAddUp` | src/pinion64/pmm.c:95-135 | the sizes of the two parts sum to the total |
| `MemoryMap.Maps.FillLow` | src/pinion64/pmm.c:95-128 | the first loop always leaves by a break; it copies the entries below the cutoff, splitting the one across it, and looks at six at most |
| `MemoryMap.Maps.FillHigh` | src/pinion64/pmm.c:130-135 | the second loop copies the remaining entries, sixteen at most |
| `MemoryMap.Maps.Init` | src/pinion64/pmm.c:76-135 | for a sorted map of more than 8 MiB with at most 6 low and 16 high entries the two maps are exactly the two parts; for any map it says how many entries are written |
| `MemoryMap.OverrunExactly` | src/pinion64/pmm.c:29-30 | the loops write past the three low entries exactly when the fourth entry of the map starts below the cutoff, past the eight high entries exactly when the ninth from the end reaches it or there are more than fourteen |
| `MemoryMap.OverrunInput` | src/pinion64/pmm.c:95-128 | four small regions at the bottom of a 4 GiB map overrun the low array |
| `MemoryMap.Maps.Read` | src/pinion64/api/memory_map_read.c:18-32 | base and limit of a region, zeros past the end; at the index let through by the off-by-one check of pmm.c:37 exactly when the entry there is zero |
| `MemoryMap.ReadAfterInit` | src/pinion64/api/memory_map_read.c:18-32 | after the split, with at most eight high entries, every index reads the region of the high part or zeros, exactly unless the array is full and the memory behind it not zero |
| `ConfigText.ParseFrom` | src/pinion64/config.c:34-100 | the scan terminates, takes at most 64 triples in text order, and no NUL it writes falls into a recorded string, each of which is ended by one |
| `ConfigRoundTrip.LineParses` | src/pinion64/config.c:40-98 | a well-formed line, comment or empty line moves the parser to the next line, an entry giving its three strings; a line of blanks swallows what follows |
| `ConfigRoundTrip.ParserRoundTrip` | src/pinion64/config.c:34-100 | well-formed triples printed one a line among comments, empty lines and lines of blanks parse to exactly those triples in order (the first 64) and nothing else, exactly when no line of blanks comes before the 64th entry |
| `ConfigRoundTrip.BlankLineInput` | src/pinion64/config.c:55-67 | a line holding a tab takes its newline for an empty section and swallows the entry after it |
| `ConfigMemory.Config.LineTriple` | src/pinion64/config.c:55-98 | the in-place parse of one line writes exactly the index fields and NULs of the grammar, cut-off lines included |
| `ConfigMemory.Config.Parse` | src/pinion64/config.c:34-100 | the in-place parser fills the index with the triples of the text and changes exactly the marked characters to NUL |
| `ConfigLookup.Strcmp` | src/pinion64/config.c:25-32 | returns 0 exactly when one string is a prefix of the other |
| `ConfigLookup.EntryReadable` | src/pinion64/config.c:60-97 | after the parse the three pointers of every entry lead to its three strings |
| `ConfigLookup.ParsedFileReadable` | src/pinion64/config.c:102-113 | the index and buffer left by parsing a printed file hold exactly the printed keys and values |
| `ConfigLookup.ConfigRead` | src/pinion64/config.c:102-113 | the value of the first entry whose names match up to a prefix, or null; an entry with a matching section and a null property is a null pointer followed |
| `ConfigLookup.IndexSearchable` | src/pinion64/config.c:34-100 | for any text the index left by the parse can be searched |
| `ConfigLookup.IndexReadable` | src/pinion64/config.c:66-71 | for any text all keys of that index are set exactly unless a cut-off line left a section without a property |
| `ConfigCut.CutFile` | src/pinion64/config.c:55-98 | for every prefix of a printed file all keys of the index are set exactly unless the cut falls into the gap behind a section |
| `ConfigCut.NullPropertyInput` | src/pinion64/config.c:66-71 | a file that ends behind its first section: every lookup in that section stops at a null property |
| `ConfigLookup.LookUp` | src/pinion64/config.c:102-113 | parsing a printed file and reading a key gives the value of the first prefix match; it is the value of the exact lookup exactly when no earlier entry matches up to a prefix or the first that does has the same value, and always when no names are prefixes of one another |
| `ConfigLookup.LookupIsExact` | src/pinion64/config.c:102-113 | the entry found is that of the exact first-match lookup exactly when no entry before the exact match matches up to a prefix |
| `ConfigLookup.ValueIsExact` | src/pinion64/config.c:102-113 | the value found is that of the exact lookup exactly when no earlier entry matches up to a prefix or the first that does has the same value |
| `ConfigLookup.PrefixFreeLookup` | src/pinion64/config.c:102-113 | it is exact whenever no distinct stored and queried names are prefixes of one another |
| `ConfigLookup.PrefixFound` | src/pinion64/config.c:25-32 | a concrete lookup of a longer name that finds a shorter one |
| `Hex.LogPutP` | src/pinion64/log.c:115-120 | prints the sixteen hexadecimal digits of the number, highest first |
| `Hex.PrintedReadsBack` | src/pinion64/log.c:115-120 | the printed digits denote the number printed, for every 64-bit number |
| `Hex.ReadAsPtr` | src/pinion64/config.c:115-142 | the value of a hexadecimal string modulo 2^64; the sentinel for a missing or malformed one |

## Left out

- KernelMemory.Kernel: a TCB is named by its thread id and its `next` links and registers are fields of maps that the methods reassign, so reuse of a freed TCB's memory under another id is not captured; the guards exclude dangling pointers.
- InterruptSetTap: models the old tap masked to its 14-bit vector, because the unmasked word leaves the page table.
- PageSet: a call that runs out of table frames is excluded; it models the call with the converted flags, because the shipped argument defeats the documented purpose; ShippedPageSet is the call as shipped.
- PageSetMaps: regions above 2^48 bytes, in which pages alias, are not covered.
- SetFrame: a call that runs out of table frames is excluded, since the source would write through a null pointer there; SetPageIsUpdate says that it needs fewer than three frames left.
- Init: the memory behind the two arrays is taken as not overlapping them, so what an overrun does to the other map or to other variables is not modelled.
- CutFile: files with lines of blanks are not covered; what such a line swallows depends on everything behind it.
- Strcmp: works on string values; the buffer strings are read by `CString`.
- A timer tick between `sti` and the trailing `int 0xFF` of an API call (src/pinion64/api.s:56-63): call and yield are one step.
- The guards on clients, as `Enabled` states them: a suspended thread on a fault or zombie list is not resumed, a suspended thread that a list or route names is not reaped, no installed vector is put into two taps, a fresh TCB has no taps, idle makes no call and does not fault, and a double fault halts the machine.
- Device interrupts: the source ignores their vectors so far; nothing fires a vector of the IRQ page.
- Register save and restore, the TSS, GDT, IDT and CR3 work in the assembly files; of loading and unloading a TCB only the active slot is modelled.
- thread_pull_state, thread_push_state, interrupt_get_tap and api_resolve: field copies and a lookup (the yield after thread_push_state is the event Yield); overwriting the saved registers of a thread that waits is not modelled.
- Multiple cores in the thread state machine: the source fixes the number of cores at one; only the spinlock is modelled for many.
- ELF loading, ACPI, APIC, multiboot, log devices and the tester: bulk, hardware access or output only. The boot memory map is taken as sorted and disjoint.
- mutex_trylock, which nothing in the core calls.
- The lock releases inside the page-table walks, which protect nothing on one core.
- A page-table entry's accessed and dirty bits being set by the hardware.
