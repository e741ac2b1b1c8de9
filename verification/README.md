# Linux-System-Programming-with-C: a verified model

This project models the concurrent programs of the repository, and proves what they promise for
all inputs, all interleavings and all runs. Programs are modelled at the granularity at which
threads can interfere: a program counter for each thread, mutex owners, and threads asleep on or
woken from a condition variable. POSIX spurious wakeups are allowed everywhere.

A transition system is a step function that answers `None` when an action is not enabled
(`Runs.dfy`); a run is a sequence of actions. Beside each transition system stands a class whose
fields and arrays are updated in place, one statement at a time, and whose methods are proved to
follow the step function (`*Program.dfy`, `SemaphoreObject.dfy`, `SharedBuffer.dfy`). Each program
has its `main` as a method (`StartAndJoin`, `Serve`, `CountTogether`, `CallAll`), which takes any
schedule or any input, runs the objects until nothing more can happen, and ends in the state the run
theorems promise. Lemmas carry `{:induction false}`: every induction is written out.

## Layers

The bounded buffer of `6_Synchronization`, from the bottom up, for any buffer size N >= 1 and any
number of producers and consumers, each with its own loop count (`main` starts one of each):

- `Semlib2`, `SemaphoreRefinement`: the semaphore made of a mutex and a condition variable, against
  the atomic semaphore of `Semlib`.
- `RingBuffer`, `Body`: the statements of the critical section on the ring, shared by all variants,
  against `BoundedQueue`, the one specification.
- `Program`, `AtomicProdCons`, `AtomicTheorems`: producers and consumers over atomic semaphores; token
  accounting.
- `Stack`, `StackTheorems`: the same program over three `Semlib2` semaphores. Its data properties are
  inherited through the refinement; its liveness combines no lost wakeup with token counting.
- `Monitor`, `MonitorTheorems`: one mutex and two condition variables, against the same queue.
- `BusyWait`, `BusyWaitTheorems`: no lock at all, and the exact conditions under which that works.

The chat server: `ChatServer` (the steps), `ChatHistory` (what a session should hear),
`ChatInvariant`, `ChatSpec` (a server without tables, which the steps refine), `ChatTheorems`,
`ChatProgram`. The remaining modules are `Alternation` (mipc.c,
synclib.c), `SharedCall` (app.c, rpc.c), `Files` (split.c, merge.c) and `Digits` (ch_int).

## Results that need a condition

- The semaphore and monitor versions finish exactly when consumed <= produced <= consumed + N, over
  all loops. `main` starts one producer and one consumer with the same NLOOPS, which is balanced.
- `prodcons_t.c` keeps its counter right, in all interleavings, exactly if it has one cell, at most one
  item to produce, or nothing to consume. It keeps its items right exactly in those
  cases and with at most two items to consume and at most N + 1 to produce. The source has 2 cells and 20 loops: its consumer can take
  items that were never produced (`BusyWaitTheorems.Overconsume`) and its producer can overwrite items
  (`BusyWaitTheorems.Overrun`). With each update of the counter as one step it is a bounded queue.
- `mipc.c` finishes exactly for an even NLOOPS. It defines 10.
- `rpc.c` overflows a 32-bit int exactly for arguments above 65535.
- `ch_int` prints its argument exactly when the argument is not negative. For a negative one it prints
  one character: "0" for -10, "-" for -3.

## Reading notes

- `pthread_cond_signal` wakes one sleeper of the scheduler's choice. POSIX lets it wake more; the
  others are spurious wakeups here.
- An item counts as produced when `counter++` runs and as consumed when `counter--` runs.
- The comment at `9_Chatting server & client/chats.c:57` says that the test gives an unused id to a
  client; the code sends to every slot in use but the sender's, and so does the model. A client that
  closes before it has sent a name keeps the name its slot had before (`leftover` in `ChatSpec`).
- The values of `rand()`, what `accept` and `recv` answer, and the order of threads are arbitrary.

## Model

| member | source | states |
|---|---|---|
| `StackTheorems.RefinementChain` | 6_Synchronization/prodcons_s.c:54-129 | every run of any number of producers and consumers over mutex-and-condition semaphores, spurious wakeups included, is call for call a run over atomic semaphores, and operation for operation a run of the atomic bounded FIFO queue; what is put are the values rand() gave the producers' copies, in order, less a copy not counted yet |
| `StackTheorems.RunProducesGenerated` | 6_Synchronization/prodcons_s.c:70-73 | over whole runs the produced log is the sequence of the values generated for the producers' copies, in order, but for at most one copy not counted yet, and all of them when the threads are done |
| `StackTheorems.ProgramOrder` | 6_Synchronization/prodcons_s.c:59-123 | in every run the calls of each thread take effect, and its statements run, in the order of its loop body over and over: a prefix of as many bodies as its loop count, and all of them when it is done |
| `Stack.CopyStores` | 6_Synchronization/prodcons_s.c:70-71 | a producer that copies keeps the value generated and stores it in the cell at in, and changes nothing else of the ring |
| `StackTheorems.DeadlockFree` | 6_Synchronization/prodcons_s.c:59-123 | when the loop counts are balanced (consumed <= produced <= consumed + N), every reachable state with an unfinished thread has an enabled step that is not a spurious wakeup |
| `StackTheorems.MaximalRunFinishesIffBalanced` | 6_Synchronization/prodcons_s.c:132-181 | a run that can go no further has all threads done if and only if the loop counts are balanced; then the ring holds exactly the difference, and with equal counts counter is 0, in is out and the consumed log is the produced log |
| `StackTheorems.Termination` | 6_Synchronization/prodcons_s.c:59-169 | every run has at most 27 steps for each loop iteration plus 3 for each spurious wakeup in it, so without spurious wakeups every run is finite |
| `StackTheorems.RunIsSafe` | 6_Synchronization/prodcons_s.c:60-79 | in every reachable state at most one thread is in the critical section, the consumed log is a prefix of the produced log, 0 <= counter <= N, and outside the critical section produced = consumed followed by the counter cells from out, with in == (out + counter) % N |
| `StackTheorems.RunTokens` | 6_Synchronization/prodcons_s.c:60-79 | token accounting in every reachable state: EmptySem + slots in threads' hands + counter = N, counter = FullSem + items not posted yet or already claimed, MutexSem + threads inside = 1 |
| `StackTheorems.RunLosesNoWakeup` | 6_Synchronization/semlib2.c:25-79 | in every reachable state of the whole program, none of the three semaphores has lost a wakeup, and the mutex of each has exactly the owner it records |
| `StackTheorems.StuckRefines` | 6_Synchronization/semlib2.c:26-38 | a state in which only spurious wakeups can happen is stuck at the atomic level too: no thread is left asleep next to a token |
| `StackTheorems.StuckIsFinishedIffBalanced` | 6_Synchronization/prodcons_s.c:59-123 | in a stuck state all threads are done if and only if supply and demand are balanced for the buffer |
| `StackTheorems.StepRank` | 6_Synchronization/semlib2.c:29-35 | every step but a spurious wakeup lowers the termination measure, although a woken waiter may lose its token and sleep again; a signal pays for the wakeup it causes |
| `StackTheorems.RankNonNegative` | 6_Synchronization/prodcons_s.c:59-86 | the measure is never negative: a thread inside a call has set aside what the call costs |
| `StackTheorems.StepBudget` | 6_Synchronization/prodcons_s.c:59-83 | no step changes what all loops together produce and consume |
| `Stack.StepRefines` | 6_Synchronization/semlib2.c:25-79 | each step is a stutter or exactly one atomic step, taken at sval--, sval++ or a ring statement |
| `Stack.StepInv` | 6_Synchronization/prodcons_s.c:60-79 | the library invariant of all three semaphores, the agreement of threads with their calls, and the atomic level's invariant are kept by every step |
| `Stack.CallerRefines` | 6_Synchronization/semlib2.c:36-36 | a call takes effect for the atomic level at its decrement or increment and is over for it from there to its unlock |
| `Stack.OthersKept` | 6_Synchronization/semlib2.c:64-75 | a step of one thread leaves every other thread where the atomic level sees it, even the one a signal wakes |
| `Stack.InitInv` | 6_Synchronization/prodcons_s.c:137-145 | after the three sem_init calls the invariant holds and the state stands for the atomic initial state |
| `SemaphoreRefinement.RunRefines` | 6_Synchronization/semlib2.c:25-79 | for any number of threads mixing sem_wait, sem_trywait and sem_post, every run is, invocation, effect and return for each thread, a run of the atomic semaphore: between its lock and its unlock each call takes effect once, as its own operation, and returns what that operation says; sval stays non-negative, and no wakeup is lost |
| `SemaphoreRefinement.StepRefines` | 6_Synchronization/semlib2.c:25-79 | the lock invokes the call, sval--, sval++ and the failing test of sem_trywait are where it takes effect, and the unlock returns 0 or -1 as the effect said |
| `SemaphoreRefinement.StuckMeansNoToken` | 6_Synchronization/semlib2.c:29-35 | if no call in progress can take a step, the mutex is free, every call in progress is a sem_wait asleep, and sval is 0 if anyone sleeps |
| `Semlib2.SignalNoLostWakeup` | 6_Synchronization/semlib2.c:67-73 | a signal before the increment leaves room for it: the woken thread covers the token about to appear |
| `Semlib2.SleepNoLostWakeup` | 6_Synchronization/semlib2.c:29-30 | a thread that goes to sleep leaves no token uncovered |
| `Semlib2.StepNoLostWakeup` | 6_Synchronization/semlib2.c:26-38 | while anyone sleeps, sval plus the increments already signalled is at most the number of awake waiters not yet through |
| `Semlib2.StepKeepsMutex` | 6_Synchronization/semlib2.c:26-38 | a thread is between lock and unlock exactly when it owns the mutex, pthread_cond_wait releasing and retaking it |
| `Semlib2.StepInv` | 6_Synchronization/semlib2.c:25-79 | every step keeps sval non-negative, the mutex consistent, a token present in front of each decrement, and no wakeup lost |
| `Semlib2.InitInv` | 6_Synchronization/semlib2.c:6-22 | sem_init with a non-negative value establishes the invariant for any number of threads |
| `Semlib2.EnabledIff` | 6_Synchronization/semlib2.c:26-75 | a call is kept waiting only at the lock, asleep, or woken with the mutex taken; a signal can wake any sleeper, and a sleeper can always wake by itself |
| `SemaphoreObject.Semaphore.constructor` | 6_Synchronization/semlib2.c:6-22 | sem_init leaves the value given, a free mutex and nobody in a call |
| `SemaphoreObject.Semaphore.Perform` | 6_Synchronization/semlib2.c:25-79 | the object updated in place follows the transition system: an enabled action gives exactly its successor state, a disabled one changes nothing |
| `SemaphoreObject.Semaphore.Proceed` | 6_Synchronization/semlib2.c:29-59 | each statement of sem_wait, sem_trywait and sem_post in place, tied to the step function |
| `SemaphoreObject.Semaphore.SignalOne` | 6_Synchronization/semlib2.c:67-71 | pthread_cond_signal wakes the named sleeper, or nobody when nobody sleeps |
| `SemaphoreObject.Semaphore.SomeoneSleeps` | 6_Synchronization/semlib2.c:67-67 | whether a signal finds a sleeper |
| `BoundedQueue.RunIsFifo` | 6_Synchronization/prodcons.h:16-21 | in every run of the specification queue, what was put is what was got followed by what is stored, and never more than the capacity is stored |
| `RingBuffer.Conservation` | 6_Synchronization/prodcons.h:16-21 | with no index ahead of the counter, the produced log is the consumed log followed by the counter cells from out, and in == (out + counter) % N |
| `RingBuffer.WriteKeeps` | 6_Synchronization/prodcons_s.c:71-71 | writing the next cell overwrites no item that is still stored |
| `RingBuffer.AdvanceInKeeps` | 6_Synchronization/prodcons_s.c:72-72 | in moves one ahead of the counter, modulo N |
| `RingBuffer.CountUpKeeps` | 6_Synchronization/prodcons_s.c:73-73 | counter++ makes the written cell the newest stored item |
| `RingBuffer.ReadIsOldest` | 6_Synchronization/prodcons_s.c:109-109 | what the consumer reads is the oldest item not consumed |
| `RingBuffer.AdvanceOutKeeps` | 6_Synchronization/prodcons_s.c:110-110 | out moves one ahead of the counter, modulo N |
| `RingBuffer.CountDownKeeps` | 6_Synchronization/prodcons_s.c:111-111 | counter-- consumes exactly the item read |
| `Body.ProducerKeeps` | 6_Synchronization/producer_s.c:51-55 | each producer statement keeps the ring consistent, prepares the next one, and disturbs nothing a consumer relies on |
| `Body.ConsumerKeeps` | 6_Synchronization/consumer_s.c:63-66 | each consumer statement keeps the ring consistent, prepares the next one, and disturbs nothing a producer relies on |
| `Body.StatementRefinesQueue` | 6_Synchronization/prodcons_s.c:70-73 | the three statements of a critical section are one queue operation, taken at the counter update: put enabled only when not full, get returning the oldest item |
| `SharedBuffer.BoundedBuffer.constructor` | 6_Synchronization/prodcons.h:16-21 | the record starts with in, out and counter at 0 |
| `SharedBuffer.BoundedBuffer.Execute` | 6_Synchronization/prodcons_s.c:70-73 | the statements on the record updated in place do to cells, indices, counter and local data what the specification of a statement says |
| `Workload.AllCountedIsSettled` | 6_Synchronization/prodcons_s.c:169-169 | when all loops are counted, what is left in the ring is the difference, in order; with equal counts it is empty and in is out |
| `AtomicProdCons.StepInv` | 6_Synchronization/producer_s.c:40-67 | token accounting and ring consistency are kept by every step over atomic semaphores |
| `AtomicProdCons.StepTokens` | 6_Synchronization/producer_s.c:42-65 | the three token equations are kept by every semaphore call and every ring statement |
| `AtomicProdCons.Exclusion` | 6_Synchronization/consumer_s.c:59-69 | two threads inside the critical section are the same thread |
| `AtomicProdCons.EnterReady` | 6_Synchronization/consumer_s.c:54-64 | a thread that enters holds a token that guarantees it room, or an item |
| `AtomicProdCons.StatementKeepsData` | 6_Synchronization/producer_s.c:51-55 | a statement inside the critical section keeps ring and logs consistent, alone as it is |
| `AtomicProdCons.RunRefinesQueue` | 6_Synchronization/producer_s.c:40-67 | every run over atomic semaphores, from any consistent state, is a run of the bounded queue, fed in order with the values generated for the producers' copies |
| `AtomicProdCons.CopyStores` | 6_Synchronization/producer_s.c:52-53 | a producer that copies keeps the value generated and stores it in the cell at in, and changes nothing else of the ring |
| `AtomicTheorems.RunProducesGenerated` | 6_Synchronization/producer_s.c:51-55 | over whole runs the produced log is the sequence of the values generated, in order, but for at most one copy not counted yet |
| `AtomicTheorems.ProgramOrder` | 6_Synchronization/consumer_s.c:52-78 | in every run each thread has done, in order, a prefix of its loop body repeated as often as its loop count, and all of it exactly when it is done |
| `AtomicProdCons.StuckIsFinished` | 6_Synchronization/consumer_s.c:52-78 | the token-counting argument: a balanced program that can go no further has run all its loops |
| `AtomicProdCons.FinishedIsBalanced` | 6_Synchronization/consumer_s.c:52-80 | a program that has run all its loops was balanced, and has settled |
| `AtomicProdCons.StepBudget` | 6_Synchronization/producer_s.c:40-67 | no step changes what all loops together produce and consume |
| `AtomicProdCons.InitInv` | 6_Synchronization/consumer_s.c:37-49 | EmptySem at MAX_BUF, MutexSem at 1 and FullSem at 0 establish the token equations |
| `AtomicTheorems.MaximalRunFinishesIffBalanced` | 6_Synchronization/consumer_s.c:52-80 | a run over atomic semaphores that can go no further has all threads done if and only if the loop counts are balanced, and then has settled |
| `AtomicTheorems.Termination` | 6_Synchronization/producer_s.c:40-67 | every run has at most 7 steps for each loop iteration, and exactly as many if and only if all threads are done |
| `AtomicProgram.StartAndJoin` | 6_Synchronization/consumer_s.c:37-80 | the processes in place: they follow the schedule asked for and then come to rest, all done exactly when the loops are balanced, then settled, and having produced exactly the values generated |
| `AtomicProgram.Machine.RunOn` | 6_Synchronization/producer_s.c:40-67 | running on always terminates in a state where no process can move |
| `AtomicProgram.Machine.Perform` | 6_Synchronization/producer_s.c:40-67 | the program over shared memory and kernel semaphores, updated in place, follows the atomic transition system |
| `AtomicProgram.Machine.SemOp` | 6_Synchronization/semlib.c:33-70 | semop by -1 waits for a positive value and semop by 1 never waits |
| `AtomicProgram.Machine.RunStatement` | 6_Synchronization/consumer_s.c:64-66 | one ring statement in place is one step of the system; a producer's copy leaves the value generated in its data and in the cell at in |
| `SemaphoreProgram.StartAndJoin` | 6_Synchronization/prodcons_s.c:132-181 | main in place: it follows the schedule asked for, spurious wakeups included, and then comes to rest, with all threads done exactly when the loops are balanced, then settled, and having produced exactly the values generated |
| `SemaphoreProgram.Machine.RunOn` | 6_Synchronization/prodcons_s.c:59-123 | running on always terminates, in a state where nothing but spurious wakeups can happen, reached by a run of the transition system |
| `SemaphoreProgram.Machine.Follow` | 6_Synchronization/prodcons_s.c:150-158 | what is done of a schedule are exactly its actions that are enabled when their turn comes, and every invariant is kept |
| `SemaphoreProgram.Machine.StepSome` | 6_Synchronization/prodcons_s.c:59-123 | if no thread can be found that moves, the state is stuck |
| `SemaphoreProgram.Machine.Perform` | 6_Synchronization/prodcons_s.c:54-129 | the thread table, the three sem_t and the buffer updated in place follow the transition system |
| `SemaphoreProgram.Machine.RunCall` | 6_Synchronization/prodcons_s.c:60-66 | one step inside sem_wait or sem_post, and on its return the thread goes on to the next statement |
| `SemaphoreProgram.Machine.RunStatement` | 6_Synchronization/prodcons_s.c:70-73 | one ring statement in place is one step of the system; a producer's copy leaves the value generated in its data and in the cell at in |
| `SemaphoreProgram.Machine.constructor` | 6_Synchronization/prodcons_s.c:137-158 | main sets up the initial state of the transition system |
| `MonitorTheorems.RunRefinesQueue` | 6_Synchronization/prodcons_m.c:58-87 | every run of the two-condition version, spurious wakeups included, is a run of the same bounded queue; what is put are the values rand() gave the producers' copies, in order, less a copy not counted yet |
| `MonitorTheorems.RunProducesGenerated` | 6_Synchronization/prodcons_m.c:72-76 | over whole runs the produced log is the sequence of the values generated, in order, but for at most one copy not counted yet, and all of them while the mutex is free |
| `MonitorTheorems.ProgramOrder` | 6_Synchronization/prodcons_m.c:58-87 | in every run each thread has taken the mutex, run its three statements, signalled and given the mutex back, in that order, over and over, and as often as its loop count exactly when it is done |
| `Monitor.CopyStores` | 6_Synchronization/prodcons_m.c:73-74 | a producer that copies keeps the value generated and stores it in the cell at in, and changes nothing else of the ring |
| `Monitor.EnabledIff` | 6_Synchronization/prodcons_m.c:60-86 | a thread is kept waiting only at the lock, asleep, or woken with the mutex taken; a signal can wake any sleeper of the partner role, and a sleeper can always wake by itself |
| `MonitorTheorems.RunIsSafe` | 6_Synchronization/prodcons_m.c:58-131 | in every reachable state one thread at most holds the mutex, 0 <= counter <= N, the buffer conserves and orders its items whenever the mutex is free, and no wakeup is lost on NotFull or NotEmpty |
| `MonitorTheorems.DeadlockFree` | 6_Synchronization/prodcons_m.c:58-131 | balanced loops: an unfinished reachable state has an enabled step that is not a spurious wakeup |
| `MonitorTheorems.MaximalRunFinishesIffBalanced` | 6_Synchronization/prodcons_m.c:142-181 | a run that can go no further has all threads done if and only if the loop counts are balanced, and then has settled |
| `MonitorTheorems.Termination` | 6_Synchronization/prodcons_m.c:64-70 | at most 9 steps for each loop iteration plus 3 for each spurious wakeup |
| `MonitorTheorems.StuckIsFinishedIffBalanced` | 6_Synchronization/prodcons_m.c:109-115 | producers and consumers never all sleep with work left, unless the loop counts were unbalanced |
| `MonitorTheorems.StuckSleepers` | 6_Synchronization/prodcons_m.c:64-70 | with nobody awake, sleeping producers mean a full buffer and sleeping consumers an empty one |
| `MonitorTheorems.StepRank` | 6_Synchronization/prodcons_m.c:64-86 | every step but a spurious wakeup lowers the measure; a signal pays for the wakeup it causes |
| `Monitor.StepInv` | 6_Synchronization/prodcons_m.c:58-131 | mutual exclusion, ring consistency and no lost wakeup on either condition are kept by every step |
| `Monitor.StepWakeups` | 6_Synchronization/prodcons_m.c:76-78 | sleepers on NotEmpty imply counter is at most the awake consumers plus counted and not yet signalled items; sleepers on NotFull imply the same for N - counter and producers |
| `Monitor.SignalKeepsWakeups` | 6_Synchronization/prodcons_m.c:123-123 | a signal hands what it covers over to the thread it wakes |
| `Monitor.SleepKeepsWakeups` | 6_Synchronization/prodcons_m.c:64-66 | a thread that goes to sleep leaves nothing available to its role uncovered |
| `Monitor.StatementKeepsData` | 6_Synchronization/prodcons_m.c:118-120 | a statement under the mutex keeps ring and logs consistent |
| `Monitor.StepMutex` | 6_Synchronization/prodcons_m.c:60-86 | a thread is between lock and unlock exactly when it owns the mutex |
| `Monitor.InitInv` | 6_Synchronization/prodcons_m.c:147-159 | the initial state satisfies the invariant |
| `MonitorProgram.StartAndJoin` | 6_Synchronization/prodcons_m.c:142-181 | main in place: it follows the schedule asked for, spurious wakeups included, and then comes to rest, with all threads done exactly when the loops are balanced, then settled, and having produced exactly the values generated |
| `MonitorProgram.Machine.RunOn` | 6_Synchronization/prodcons_m.c:55-140 | running on always terminates in a state where nothing but spurious wakeups can happen |
| `MonitorProgram.Machine.StepSome` | 6_Synchronization/prodcons_m.c:55-140 | if no thread can be found that moves, the state is stuck |
| `MonitorProgram.Machine.Perform` | 6_Synchronization/prodcons_m.c:55-140 | mutex, thread table and buffer updated in place follow the transition system |
| `MonitorProgram.Machine.Proceed` | 6_Synchronization/prodcons_m.c:58-87 | each statement of the loops in place, tied to the step function |
| `MonitorProgram.Machine.RunStatement` | 6_Synchronization/prodcons_m.c:73-76 | one ring statement in place is one step of the system; a producer's copy leaves the value generated in its data and in the cell at in |
| `MonitorProgram.Machine.SignalPartner` | 6_Synchronization/prodcons_m.c:78-78 | pthread_cond_signal wakes the named sleeper on the partner's condition, or nobody when nobody sleeps there |
| `MonitorProgram.Machine.SomeoneSleeps` | 6_Synchronization/prodcons_m.c:123-123 | whether a signal finds a sleeper of that role |
| `BusyWaitTheorems.CounterRightIffHarmless` | 6_Synchronization/prodcons_t.c:52-94 | with counter++ and counter-- as load and store and no lock: for all buffer sizes and loop counts, the counter is right in every reachable state of every interleaving if and only if there is one cell, at most one item to produce, or nothing to consume |
| `BusyWaitTheorems.QueueRightIffTolerable` | 6_Synchronization/prodcons_t.c:52-94 | in all reachable states the items consumed are the first of those produced and the others fit the buffer if and only if that holds of the counter, or there are at most two items to consume and at most N + 1 to produce; the source has 20 of each for 2 cells |
| `BusyWaitTheorems.OverconsumesIff` | 6_Synchronization/prodcons_t.c:95-95 | some interleaving consumes more items than were ever produced if and only if there are two cells, two items to produce and three to consume, as in the source with 2 cells and 20 loops |
| `BusyWaitTheorems.LostUpdate` | 6_Synchronization/prodcons_t.c:66-66 | every main with two cells, two items to produce and one to consume has a run that loses an update, as the source's comment concedes |
| `BusyWaitTheorems.Overconsume` | 6_Synchronization/prodcons_t.c:82-87 | the run in which the producer's stale store makes the consumer take a third item when two were produced |
| `BusyWaitTheorems.Overrun` | 6_Synchronization/prodcons_t.c:59-66 | the run in which the consumer's stale store makes the producer put one item more than the buffer holds |
| `BusyWaitTheorems.LostFrom` | 6_Synchronization/prodcons_t.c:66-66 | from every state with both threads polling and the buffer neither empty nor full there is a run that loses an update |
| `BusyWaitTheorems.RunRefinesQueue` | 6_Synchronization/prodcons_t.c:52-94 | a main that is harmless, or whose updates each run as one step, is a run of the bounded queue with the counter right throughout, at every interleaving of its other steps |
| `BusyWaitTheorems.MaximalRunFinishesIffBalanced` | 6_Synchronization/prodcons_t.c:52-94 | when nothing but busy waiting is left of such a main, both loops are done if and only if the loop counts are balanced, and then the buffer has settled |
| `BusyWaitTheorems.DeadlockFree` | 6_Synchronization/prodcons_t.c:61-82 | balanced loops: an unfinished reachable state of such a main has a step that is not busy waiting, for both threads are never busy waiting at once |
| `BusyWaitTheorems.RunMoves` | 6_Synchronization/prodcons_t.c:56-87 | every run, races included, has at most 5 steps for each iteration that are not busy waiting, and exactly as many if and only if both loops are done |
| `BusyWaitTheorems.StepApart` | 6_Synchronization/prodcons_t.c:56-87 | a harmless main never has both threads past their polls, so every store finds the counter as it was loaded |
| `BusyWaitTheorems.RunProducesGenerated` | 6_Synchronization/prodcons_t.c:63-66 | in every run, races included, the produced log is the sequence of the values generated for the producer's copies, in order, less a copy not counted yet |
| `BusyWait.RightIffClean` | 6_Synchronization/prodcons_t.c:66-66 | run by run, the counter is right all along if and only if every store finds it as it was loaded |
| `BusyWait.CleanRunIsFifo` | 6_Synchronization/prodcons_t.c:56-90 | a run with such stores, at every interleaving of its reads, index and count steps, is a run of the bounded queue |
| `BusyWait.CleanMain` | 6_Synchronization/prodcons_t.c:96-123 | in such a run of main the counter stays within bounds and, once both loops are done, the buffer has settled |
| `BusyWait.SingleStepsAreClean` | 6_Synchronization/prodcons_t.c:87-87 | if each update of the counter runs as one step, every store is clean |
| `BusyWait.ProducerStepInv` | 6_Synchronization/prodcons_t.c:56-66 | a producer step with a clean store keeps the ring consistent while the consumer is anywhere in its own loop |
| `BusyWait.ConsumerStepInv` | 6_Synchronization/prodcons_t.c:78-87 | a consumer step with a clean store keeps the ring consistent while the producer is anywhere in its own loop |
| `BusyWaitProgram.StartAndJoin` | 6_Synchronization/prodcons_t.c:96-123 | main in place: it follows the schedule asked for and then runs until nothing but busy waiting is left; then a tolerable main has its items right, and an undisturbed one is done exactly when balanced, and settled |
| `BusyWaitProgram.Machine.RunOn` | 6_Synchronization/prodcons_t.c:52-94 | letting threads that are not busy waiting run always terminates |
| `BusyWaitProgram.Machine.StepSome` | 6_Synchronization/prodcons_t.c:58-82 | a step is found unless both threads are done or busy waiting |
| `BusyWaitProgram.Machine.Perform` | 6_Synchronization/prodcons_t.c:52-94 | the two threads on the shared buffer updated in place follow the transition system |
| `ChatSpec.RunFollowsSpec` | 9_Chatting server & client/chats.c:146-178 | every run is, input for input, a run of a server without slots, sockIdx and descriptor sets: each visit of a ready client records one event of the session select reported, the name it sends first, then its lines as name, > and text, then its logout; a ready listener opens the next session on the descriptor accept gives; nothing else is recorded |
| `ChatSpec.StepRefines` | 9_Chatting server & client/chats.c:157-176 | each step does what that server does on the same input, the loop bound fd_max, the next descriptor and the open connections included |
| `ChatSpec.ClientAnswers` | 9_Chatting server & client/chats.c:66-95 | a visit of a ready client appends exactly the event its input calls for, under the name looked up in the history, and closes its connection only on a logout |
| `ChatSpec.StepEnabledIff` | 9_Chatting server & client/chats.c:146-176 | the server takes a step exactly when that server does and, to accept, the descriptor fits sockIdx and fewer sessions are online than there are slots |
| `ChatSpec.SlotFreeIff` | 9_Chatting server & client/chats.c:35-44 | GetID finds a free slot exactly if fewer sessions are online than there are slots |
| `ChatTheorems.RunDelivers` | 9_Chatting server & client/chats.c:146-178 | after any run the history is exactly what the inputs call for, the tables agree, nothing went wrong, and every session has been sent exactly the messages and logouts of others issued between its accept and its logout, in server order, each once; every message and logout is signed with the one name its session gave before |
| `ChatTheorems.RunSameOrder` | 9_Chatting server & client/chats.c:56-63 | two sessions see the messages they share in the same order |
| `ChatTheorems.LogoutReachesAll` | 9_Chatting server & client/chats.c:83-93 | a logout is sent to exactly those who had been accepted and had not logged out, and no session logs out twice |
| `ChatTheorems.StaleSnapshotIsSafe` | 9_Chatting server & client/chats.c:147-175 | during a pass, every ready client descriptor not visited yet is still open, is the connection select reported, and sockIdx names the slot in use that owns it |
| `ChatInvariant.StepInv` | 9_Chatting server & client/chats.c:146-178 | every select, accept, login, message and logout keeps the tables in agreement, the snapshot safe, and every inbox exact |
| `ChatInvariant.VisitFindsOwner` | 9_Chatting server & client/chats.c:173-175 | ProcessClient(sockIdx[i]) acts on the client that owns socket i |
| `ChatInvariant.AcceptTable` | 9_Chatting server & client/chats.c:158-171 | accept keeps reads, sockIdx, the slots in use and fd_max in agreement, and gives the new session a descriptor of its own |
| `ChatInvariant.AcceptDelivered` | 9_Chatting server & client/chats.c:158-171 | a new session starts with nothing heard and everybody else's inbox unchanged |
| `ChatInvariant.CloseTable` | 9_Chatting server & client/chats.c:86-88 | logout keeps the tables in agreement and takes exactly that session offline |
| `ChatInvariant.SendFromEffect` | 9_Chatting server & client/chats.c:56-63 | the loop sends the message once to each session in use but the sender and touches nothing else |
| `ChatInvariant.TargetsAreOthers` | 9_Chatting server & client/chats.c:57-57 | the slots the loop reaches are exactly the online sessions but the sender's |
| `ChatInvariant.BroadcastInv` | 9_Chatting server & client/chats.c:46-64 | after a broadcast every inbox is again exactly what its session should have heard |
| `ChatInvariant.AcceptNames` | 9_Chatting server & client/chats.c:168-171 | a new session in a slot used before is unnamed, whatever name the slot still holds |
| `ChatInvariant.LoginNames` | 9_Chatting server & client/chats.c:71-77 | the first message, and only the first, names the session, by the text received, in the slot and in the history |
| `ChatInvariant.NamesKept` | 9_Chatting server & client/chats.c:50-50 | accepts, messages and logouts leave the names of the other sessions as they are |
| `ChatInvariant.SaidBroadcast` | 9_Chatting server & client/chats.c:78-93 | a message is recorded as the name in the slot, > and the text received, changes no table, and leaves every inbox exact |
| `ChatInvariant.LeftBroadcast` | 9_Chatting server & client/chats.c:83-93 | a logout gives up slot and descriptor, is recorded as the name in the slot, > and the log-out text, and leaves tables and inboxes exact |
| `ChatInvariant.LeftSnapshot` | 9_Chatting server & client/chats.c:83-93 | the descriptor a logout closes is not visited again in the same pass |
| `ChatInvariant.LoginInv` | 9_Chatting server & client/chats.c:71-77 | the first message keeps all invariants, names the client by its text and is sent to nobody |
| `ChatInvariant.InitInv` | 9_Chatting server & client/chats.c:141-143 | the tables agree at start whatever the uninitialised sockIdx holds |
| `ChatHistory.PositionsExact` | 9_Chatting server & client/chats.c:46-64 | what a session should hear, as positions of the history: increasing, complete and with nothing else |
| `ChatHistory.SameOrder` | 9_Chatting server & client/chats.c:46-64 | shared positions come in the same order for two sessions |
| `ChatHistory.LiveMeans` | 9_Chatting server & client/chats.c:83-88 | a session is live exactly when it was accepted and has not logged out |
| `ChatHistory.SignedSnoc` | 9_Chatting server & client/chats.c:50-50 | a history stays signed when a message under its session's name is added |
| `ChatHistory.LogoutOnce` | 9_Chatting server & client/chats.c:83-88 | no session logs out twice in an orderly history |
| `ChatServer.FirstFree` | 9_Chatting server & client/chats.c:35-44 | the slot chosen is free and all slots below it are in use |
| `ChatProgram.Server.GetID` | 9_Chatting server & client/chats.c:35-44 | the loop returns the lowest free slot, marks it and leaves the others unchanged |
| `ChatProgram.Server.SendToOtherClients` | 9_Chatting server & client/chats.c:46-64 | the loop over the slots in place does what the specification of a broadcast says |
| `ChatProgram.Server.AcceptClient` | 9_Chatting server & client/chats.c:159-171 | the accept branch in place, tied to the step function |
| `ChatProgram.Server.Process` | 9_Chatting server & client/chats.c:66-95 | ProcessClient in place: login, message or logout, tied to the step function |
| `ChatProgram.Server.VisitOne` | 9_Chatting server & client/chats.c:157-176 | one turn of the for loop in place |
| `ChatProgram.Server.VisitAll` | 9_Chatting server & client/chats.c:157-176 | the for loop visits descriptors 0, 1, and so on with the answers given for them, up to an fd_max that accept may raise meanwhile, as a run of the step function that keeps the invariant; it terminates, and stops early only at an answer of accept the code takes for granted not to get |
| `ChatProgram.Server.Pass` | 9_Chatting server & client/chats.c:146-178 | a whole pass is exactly the select and those visits, as a run of the step function that keeps the invariant |
| `ChatProgram.Serve` | 9_Chatting server & client/chats.c:110-180 | main for any number of passes, each of them served in order: tables in agreement, every inbox exact, and the history what the inputs call for |
| `Alternation.RunAlternates` | 5_Inter-Process Communication/mipc.c:36-56 | in every reachable state one token exists until both sides are done, the sides never touch the cell together, and neither the mismatch exit nor the wrong-byte exit is reached |
| `Alternation.MaximalRunFinishesIffEven` | 5_Inter-Process Communication/mipc.c:36-56 | a run that can go no further has counted to NLOOPS, and both sides are done if and only if NLOOPS is even; otherwise the parent waits for ever |
| `Alternation.RunEnds` | 5_Inter-Process Communication/mipc.c:36-56 | every run has at most 4 * NLOOPS + 2 steps |
| `Alternation.StepInv` | 5_Inter-Process Communication/synclib.c:17-56 | the token goes from the parent through pipe 1 to the child and through pipe 2 back |
| `AlternationProgram.CountTogether` | 5_Inter-Process Communication/mipc.c:36-56 | main in place, following any schedule first: the cell ends at NLOOPS, the child is done, and the parent is done for an even NLOOPS and waits for ever for an odd one |
| `AlternationProgram.Machine.RunOn` | 5_Inter-Process Communication/mipc.c:36-56 | running on always terminates with both sides done or blocked |
| `AlternationProgram.Machine.Perform` | 5_Inter-Process Communication/mipc.c:36-56 | cell, pipes and both loops updated in place follow the transition system |
| `SharedCall.MaximalRunAnswersIffInRange` | 8_Programs/app.c:125-145 | any number of successive calls: a run that can go no further has answered every call, with n(n+1)/2, if and only if all arguments are at most 65535 |
| `SharedCall.RunAnswers` | 8_Programs/rpc.c:157-175 | in every reachable state the calls made so far are answered right, client and server never touch the cell together, the server's read for printing included, and only an argument above 65535 overflows |
| `SharedCall.RunEnds` | 8_Programs/app.c:125-145 | every run has at most eight steps for each call, and exactly as many if and only if all calls are answered |
| `SharedCall.SumExact` | 8_Programs/rpc.c:162-167 | the summing loop stays within a 32-bit int exactly for arguments up to 65535 and then computes n(n+1)/2, or 0 for a negative n |
| `SharedCall.SumUpTo` | 8_Programs/rpc.c:162-167 | the loop in place computes the specified sum or reports the overflow |
| `SharedCall.StepInv` | 8_Programs/app.c:125-145 | the turn passes from client over sema1 to server and back over sema2 |
| `SharedCallProgram.CallAll` | 8_Programs/app.c:125-145 | client and server in place, following any schedule first: all calls return, with n(n+1)/2, exactly when every argument is at most 65535 |
| `SharedCallProgram.Machine.RunOn` | 8_Programs/rpc.c:157-175 | running on always terminates with both sides blocked |
| `SharedCallProgram.Machine.RunApp` | 8_Programs/app.c:125-145 | Calc in place follows the transition system |
| `SharedCallProgram.Machine.RunRpc` | 8_Programs/rpc.c:157-175 | the server's loop in place follows the transition system |
| `Files.SplitThenMerge` | 1_File IO/merge.c:37-43 | for all bytes and any two buffer sizes of at least 1, splitting and merging gives the file back |
| `Files.Split` | 1_File IO/split.c:45-60 | the first part has half the bytes, rounded down, and both parts together are the file; both loops terminate |
| `Files.CopyFirst` | 1_File IO/split.c:48-56 | the halving loop moves exactly the asked number of bytes, in order, by chunks |
| `Files.CopyRest` | 1_File IO/split.c:58-60 | the second loop moves everything that is left, in order |
| `Files.Merge` | 1_File IO/merge.c:36-43 | the result is the first file followed by the second |
| `Digits.PrintsIffNonNegative` | 2_Files and Directories/mylsl.c:11-29 | what ch_int prints, read with an optional sign, is the number if and only if the number is not negative, and then has no leading zero unless it is 0; a negative number prints the single character '0' - (-n mod 10), a digit, '0', only for a multiple of ten |
| `Digits.ChInt` | 2_Files and Directories/mylsl.c:11-29 | the method in place prints, within the 1024 characters, text that reads back, sign allowed, as the number if and only if it is not negative, and one character below '0' by the last digit otherwise, for every 32-bit int |
| `Digits.Extract` | 2_Files and Directories/mylsl.c:12-17 | the extraction loop leaves all digits, least significant first |
| `Digits.BackwardsExact` | 2_Files and Directories/mylsl.c:14-16 | the extracted characters have the positional value of the number and no leading zero |
| `Digits.ReversePrefix` | 2_Files and Directories/mylsl.c:20-26 | the swap loop reverses the text in place and touches nothing behind it |
| `Digits.ParseReversed` | 2_Files and Directories/mylsl.c:20-26 | reversing turns the positional value of the extraction into the value as read |

## Left out

- Error branches of pthread, semaphore and socket calls, `perror`, `printf` and `exit`; the calls succeed.
- Timing: `ThreadUsleep`, `usleep` and the seeds of `rand`.
- `sem_getvalue`, `sem_destroy`, `semGetValue` and `semDestroy`, and reads used only for printing.
- `sem_init` with `pshared` set, which the source refuses.
- `SEM_UNDO` adjustments at process exit, so the `app`/`rpc` result is for one live client.
- Start-up races of `producer_s.c` before `consumer_s.c` has set the semaphore values.
- Chat: a full table (`GetID` then returns nothing meaningful) and descriptors that do not fit `sockIdx` are assumed away, as the code does; a step that would need them is not enabled (`ChatSpec.StepEnabledIff` says exactly when).
- Chat: TCP framing, buffer sizes and string termination; each `recv` is one message. `chatc.c` is not part of this model.
- Weak memory: every step sees the steps before it. This matters only for `prodcons_t.c`, which has no locks.
- Fairness: a scheduler that runs a busy-waiting thread of `prodcons_t.c` for ever; all other steps of a run are counted and bounded.
- Integer widths other than in `rpc.c` and `ch_int`: counters are unbounded, and proved to stay between 0 and N wherever updates do not race.
- The pointer to a local array that `ch_int` returns: the characters are modelled, not the pointer.
- The one-shot exchanges `sipc1` to `sipc4`, the sockets of `7_Sockets`, FIFO and message-queue programs, and the remaining file, process and signal examples.
