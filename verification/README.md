# Verified models of the course's concurrent and systems programs

Six programs of the repository, modelled in Dafny with their protocols and algorithms
proved correct, or with the exact condition under which they are.

* **Bounded stack** (`test2`): push and pop with one mutex and one condition variable
  that is signalled, not broadcast; and the busy-waiting version. Threads are steps at
  lock, test, wait, signal and unlock granularity (`CondStack`, `MutexStack`); a signal
  wakes any one sleeper and spurious wakeups may happen (IEEE Std 1003.1-2017, System
  Interfaces, `pthread_cond_wait` and `pthread_cond_signal`). Both refine one abstract
  LIFO stack (`LifoStack`). `SleeperCounts` and `CondDeadlock` give the exact bound on
  the number of looping threads. `CondCompletion` and `CondBudgets` give the exact bound
  for threads with budgets, `CondUniform` the one for the test program's equal budgets;
  `CondLift`, `BudgetBoards` and `BoardRuns` build the runs they need. The
  four operations as loops over the shared buffer are methods of `SharedStack.Stack`.
* **Task broker** (`hw12`): `BrokerCore` is the event loop over two linked queues
  (`LinkedQueue`), `BrokerPeers` the producer and worker loops, `Payload` the text of a
  task message. `BrokerSystem` puts producer, broker and workers together as steps over
  FIFO channels; `BrokerSafety` and `BrokerResults` prove what holds on every run,
  `BrokerProgress` how runs end, and `BrokerAccounts` and `BrokerTimes` what the counters and
  the latency total say.
* **Process tree** (`hw5/pstree.c`): `ProcessForest` is the graph argument for
  termination and for what is printed, `ProcessLayout` the text, `ProcessTable` the table
  filled in one pass and the recursive printing over it, `ProcessDrawing` what stands between
  the labels, `ProcessOutput` the whole output.
* **Semaphore producers and consumer** (`hw9`): `SemBuffer` is the step system, with the
  consumer's read after its release of the mutex as in the code; `SemResults` its
  whole-run results, `SemWrongSum` when its sum can be wrong; `SemMemory` the two operations over the shared array.
* **Dictionary** (`hw6/part3`): `DictConvert`, `DictLookup` and their composition
  `DictRoundTrip`; `DictBytes` says the same of the files byte by byte.
* **Signal ping-pong** (`hw8`): `PingPong`, one model of both versions.

`Runs` defines runs of a step relation and the rules used on them, `Sums` sums and counts
over sequences, `Sublists` what it means to pick elements in order, `Roles` the two roles of
threads, `Texts` a law of concatenation, `Windows` what
other threads do while a call is without the mutex. `dafny verify dfyconfig.toml` checks
the whole project.

## What the proofs found

* Looping producers and consumers on the condition-variable stack can all fall asleep
  exactly when they number more than twice the capacity, with or without spurious
  wakeups (`CondDeadlock.DeadlockIff`).
* Threads with budgets have another bound. Whatever the budgets, as long as they can be
  spent, all threads finish exactly when there are at most K producers and at most K
  consumers, or one thread on a side and fewer than 2K on the other; it is the same bound
  if every thread has something to do (`CondBudgets.AlwaysFinishIff`). Two producers and
  four consumers on a stack of three can be stranded (`CondBudgets.SixThreadsStrand`),
  though looping threads of these numbers never all sleep. Budgets can be spent exactly
  when there are pushes for all pops and at most K more (`CondCompletion.AllFinishIff`,
  and `MutexStack.AlwaysCompletableIff` for the busy-waiting stack).
* With N producers and N consumers of m items each, the test program's shape, all finish on
  every run exactly when N is at most K, or m is 0, or m is 1 and 2N is at most 3K
  (`CondUniform.UniformFinishIff`).
* READY never looks at the pending queue (`hw12/broker.c:285-290`). A run can therefore
  end with tasks left over, for any number of workers, exactly when there is a task and
  room to pend one (`BrokerProgress.CanStrandIff`). A run that has come to its end has
  closed all tasks exactly when some worker was idle on it before the last task arrived,
  or there was no task or no room (`BrokerProgress.CompletesIff`).
* `pop` of `hw9/prod_cons.c` reads the cell after releasing the mutex (lines 78-79). The
  read returns the popped item exactly when no producer stored in between
  (`SemResults.ReadIsPoppedIff`). The final sum can be wrong exactly when the program is
  started with at least two producers and at least one number each
  (`SemWrongSum.SumCanBeWrongIff`); `SemWrongSum.WrongSumIsReachable` is an instance. With one
  producer the program never finishes, since its stack of one cell counts as full when
  empty (`SemResults.CanFinishIff`).
* `convert` succeeds exactly when the first line, and every line behind a blank line, is a
  word of 1 to 31 characters (`DictConvert.ConvertsIff`).
* A pid of ten digits is cut to nine in its label, and then does not read back
  (`ProcessLayout.LabelIs`).
* The layout keeps its columns exactly when the labels of the processes with children fit;
  the labels of the others may have any length (`ProcessOutput.TreeInPlaceIff`).
* `worker.c` takes any number for its identity, and -1 is what `Dequeue` returns for an
  empty queue. A task that arrives with a worker of that number first in the idle queue is
  sent to nobody (`BrokerCore.SentinelReadIff`, `BrokerCore.MinusOneLosesTask`).
* `printTree` has no row for a process without recorded children and would index the
  table at -1 for such a root; that is the precondition of `Output.PrintRoots`, and
  `ProcessTable.RowMissingIff` says exactly when it fails. The program's labels are
  `name,[pid]`.

## Model

| member | source | states |
|---|---|---|
| LifoStack.Conservation | test2/stack_cond.c:43-44 | For every legal log of pushes and pops: the items pushed are the items popped together with those stored, and the capacity is never exceeded |
| LifoStack.PopReturnsLatestPush | test2/stack_cond.c:81-82 | In a legal log every pop returns the item of the latest push that is still unmatched |
| StackMemory.StoreIsPush | test2/stack_cond.c:43-44 | Writing the cell at the index and raising the index is one push of the abstract stack, for a stack that is not full |
| StackMemory.TakeIsPop | test2/stack_cond.c:81-82 | Lowering the index and reading its cell is one pop of the abstract stack returning the top, for a stack that is not empty |
| CondStack.StepKeepsInv | test2/stack_cond.c:35-98 | Every step of any thread keeps mutual exclusion, the index inside the buffer and the log legal |
| CondStack.StepRefines | test2/stack_cond.c:35-98 | A step of the threads is one operation of the abstract stack, made by the thread that holds the mutex and only when it is not blocked: a push of the character given or a pop of the top. Any other step leaves the abstract stack as it is |
| CondStack.RefinesLifoStack | test2/stack_cond.c:24-99 | In every reachable state, for any threads and capacity: mutual exclusion, pushed equals popped plus stored, every pop so far returned the latest unmatched push |
| CondStack.StuckIffAllAsleep | test2/stack_cond.c:38-41 | Without spurious wakeups some step is possible exactly when some thread neither sleeps nor has finished |
| CondStack.ThreadMovesIff | test2/stack_cond.c:35-58 | A thread can take a step other than a spurious wakeup exactly unless it sleeps, has finished, or needs the mutex while another thread holds it |
| CondStack.AnySleeperWakes | test2/stack_cond.c:38-54 | Any sleeper can wake spuriously, and any sleeper can be the one a signal wakes |
| SleeperCounts.StepKeepsSafe | test2/stack_cond.c:38-54 | With at most 2K threads the invariant on stored items and sleepers is kept by every whole operation with any choice of the thread woken, every falling asleep and every spurious wakeup |
| SleeperCounts.RoundsToDeadlock | test2/stack_cond.c:76-92 | With more than 2K threads, from a full stack with all producers asleep, rounds of K pops and K pushes end with every thread asleep |
| SleeperCounts.DeadlockReachable | test2/stack_cond.c:38-92 | With more than 2K threads the counts with everybody asleep are reachable from the start without spurious wakeups |
| CondDeadlock.StepSimulated | test2/stack_cond.c:35-98 | Every step of the threads is one step of the counts or leaves the counts unchanged |
| CondDeadlock.NoDeadlock | test2/stack_cond.c:35-58 | With p + c at most 2K no run, spurious wakeups included, reaches a state in which all threads sleep |
| CondDeadlock.Deadlock | test2/stack_cond.c:73-96 | With p + c above 2K a run of the threads without spurious wakeups puts all of them to sleep |
| CondDeadlock.DeadlockIff | test2/stack_cond.c:38-96 | All threads can fall asleep exactly when p + c exceeds 2K, both with and without spurious wakeups |
| CondCompletion.FleetStepKeepsServed | test2/stack_cond.c:38-54 | With at most K threads a side, or one on a side and fewer than 2K on the other, the invariant on stored items, sleepers and unfinished threads is kept by every operation, sleep, wakeup and finish |
| CondCompletion.StuckOnlyWhenDone | test2/main_test_stack.c:9-31 | With that many threads, pushes for all pops and at most K more: a reachable state without a further step has every thread finished, and then the stack holds the pushes that have no pop |
| CondCompletion.AllFinishIff | test2/main_test_stack.c:9-31 | With that many threads every run ends with all threads finished exactly when there are pushes for all pops and at most K more |
| CondCompletion.RunsAreBounded | test2/main_test_stack.c:9-31 | Without spurious wakeups every run of any number of threads with budgets has at most as many steps as the work budgeted at its start |
| CondCompletion.TestProgramIsBalanced | test2/main_test_stack.c:57-66 | One producer and one consumer of m items each, for any m and any capacity of at least one, meet the conditions of StuckOnlyWhenDone |
| CondLift.Completes | test2/stack_cond.c:35-58 | From any state without a thread in the critical section a thread that is not blocked can complete its operation undisturbed and wake any one sleeper |
| BudgetBoards.Rounds | test2/stack_cond.c:76-92 | Threads that act once each can have their wakeups spent on two threads of the other side, which undo what they did and go back to sleep |
| BudgetBoards.Spends | test2/stack_cond.c:76-92 | The same with a thread of the other side for each of them, which has then nothing left to do, and one that always goes back to sleep |
| CondBudgets.SomeBudgetsStrand | test2/stack_cond.c:38-92 | For any other number of threads some budgets of at least one item each, with as many pushes as pops, lead to a state without a further step and with threads unfinished |
| CondBudgets.AlwaysFinishIff | test2/main_test_stack.c:9-31 | For every capacity and numbers of producers and consumers: all budgets that can be spent are always completed exactly when there are at most K on each side, or one on a side and fewer than 2K on the other; the same if no budget is zero |
| CondBudgets.SixThreadsStrand | test2/stack_cond.c:38-92 | Two producers and four consumers on a stack of three, all with something to do, can get stuck unfinished |
| CondUniform.OnceStays | test2/stack_cond.c:38-92 | With one item each and at most 3K threads in all, half of them producers, the invariant on stored items, sleepers and unfinished threads is kept by every operation, sleep and wakeup |
| CondUniform.UniformFinishIff | test2/main_test_stack.c:57-66 | For every K, N and m: N producers and N consumers of m items each always finish exactly when N is at most K, or m is 0, or m is 1 and 2N at most 3K |
| CondUniform.AnyItemsFinishIff | test2/main_test_stack.c:57-66 | N producers and N consumers of m items each always finish, whatever m is, exactly when N is at most K |
| MutexStack.RefinesLifoStack | test2/stack_mutex_only.c:32-104 | The busy-waiting stack has the same reachable-state guarantees as the condition-variable stack |
| MutexStack.StepRefines | test2/stack_mutex_only.c:42-103 | A step of the threads is one operation of the abstract stack, made by the thread that holds the mutex and only when there is room: a push of the character given or a pop of the top. Any other step leaves the abstract stack as it is |
| MutexStack.ThreadMovesIff | test2/stack_mutex_only.c:42-65 | A thread can take a step exactly unless it has finished or needs the mutex while another thread holds it |
| MutexStack.StepWork | test2/stack_mutex_only.c:42-65 | No step raises the work left; one that does not lower it leaves the stack and the log untouched |
| MutexStack.AlwaysCompletableIff | test2/main_test_stack.c:33-55 | For any number of threads: every reachable state can be completed exactly when there are pushes for all pops and at most K more, and the stack then holds the pushes that have no pop |
| Windows.OutcomeIsUnique | test2/stack_cond.c:38-41 | What a call does is determined by the contents at its start and by what other threads do each time it lets the mutex go |
| SharedStack.DeedsAreOperations | test2/stack_cond.c:43-44 | What other threads do in a window is a push or pop of the abstract stack where that is allowed, and nothing where it is not |
| SharedStack.Stack.Push | test2/stack_cond.c:25-59 | push waits exactly while the stack is full, and then appends its item to the contents at that moment |
| SharedStack.Stack.Pop | test2/stack_cond.c:62-99 | pop waits exactly while the stack is empty, and then removes and returns the top at that moment |
| SharedStack.Stack.MyPush | test2/stack_mutex_only.c:32-66 | my_push retries exactly while the stack is full, with the outcome of push |
| SharedStack.Stack.MyPop | test2/stack_mutex_only.c:69-104 | my_pop retries exactly while the stack is empty, with the outcome of pop |
| Payload.TextFits | hw12/producer.c:50-51 | The text of any task id that is a C int fits its 80-byte buffer with its final null |
| Payload.TextIs | hw12/producer.c:51 | The text of a task is TASK, digits that scan as its id, and the message with the same digits |
| Payload.TaskIdOfText | hw12/broker.c:352-360 | Scanning the text printed for any task id gives the id back |
| Payload.ScanForms | hw12/broker.c:352-360 | Every form of a number for the scan: white space, a sign or none, and digits give the value; without digits there is none |
| Payload.ScanOfDecimal | hw12/broker.c:352-360 | Any integer printed, negative ones included, is scanned as itself |
| Payload.TaskIdForms | hw12/broker.c:352-360 | An id is what is scanned behind TASK, and nothing else holds one |
| Payload.TaskRoundTrip | hw12/worker.c:64-72 | A task text sent with its null, whatever bytes follow, is received through the 80-byte buffer as the same text and scanned as the same id |
| LinkedQueue.Queue.Enqueue | hw12/broker.c:317-333 | Enqueue appends to the FIFO contents; head is null iff tail is null, the nodes stay distinct and linked in order |
| LinkedQueue.Queue.Dequeue | hw12/broker.c:335-350 | Dequeue removes and returns the first element, or returns -1 and changes nothing when there is none |
| BrokerCore.EventKeepsConsistent | hw12/broker.c:125-291 | Every message, whatever its worker's number, keeps the counters equal to the queue lengths, the pending queue within its limit and free of the value that stands for an empty queue |
| BrokerCore.CountersTellLengths | hw12/broker.c:93-292 | The same after any sequence of messages from the start |
| BrokerCore.SentinelReadIff | hw12/broker.c:162-168 | Neither dequeue finds an empty queue: a DONE with tasks pending sends the first of them to the worker that reported, and a valid task that arrives with a worker idle is sent to the first one, exactly unless that one's number is -1 |
| BrokerCore.IdleHaveReported | hw12/broker.c:278-290 | After any sequence of messages only workers that have reported are in the idle queue, so without a worker of number -1 every such task is sent |
| BrokerCore.MinusOneLosesTask | hw12/worker.c:16 | An instance: with a worker numbered -1 idle the first task is neither sent nor pended nor counted as dropped |
| BrokerAccounts.ReceiveTimes | hw12/broker.c:160 | After any sequence of messages the receive time of each task is that of the last message with its id, and 0 if there was none |
| BrokerAccounts.LatencyIsSum | hw12/broker.c:240-245 | After any sequence of messages the latency total is the sum, over the DONEs that count, of handling time minus send time, and the samples are their number |
| BrokerAccounts.EveryDoneIsSampled | hw12/broker.c:240 | With receive times that are not negative the DONEs that count are those with an id of the run and a send time |
| BrokerAccounts.CountersAddUp | hw12/broker.c:145-290 | Processed is the number of DONEs; messages neither dropped nor pending are as many as reports of workers not idle |
| BrokerAccounts.DropsIff | hw12/broker.c:153-203 | A message raises the drop count exactly when it holds no id of the run, or no worker is idle and the pending queue is at its limit |
| BrokerAccounts.DispatchKeepsText | hw12/broker.c:162-186 | A task dispatched at once reaches the first idle worker with the text the broker received, whatever the text |
| BrokerCore.Process.HandleTask | hw12/broker.c:125-207 | The task branch over arrays, counters and linked queues computes exactly the abstract task handling |
| BrokerCore.Process.HandleReport | hw12/broker.c:208-291 | The worker branch computes exactly the abstract handling of DONE and READY |
| BrokerCore.Process.EventLoop | hw12/broker.c:93-292 | The loop handles messages in order while tasks are open and stops at the first point where all are closed |
| BrokerPeers.MessageOfTask | hw12/producer.c:50-53 | The producer's message for a task fits 80 bytes and is received as the task's text with its id |
| BrokerPeers.Produce | hw12/producer.c:46-63 | The producer sends its tasks once each in id order, recording each send time |
| BrokerPeers.Work | hw12/worker.c:36-91 | A worker reports READY once and then one DONE with the scanned id for each message, in order |
| BrokerPeers.RegeneratedIsOriginal | hw12/broker.c:261-264 | The text regenerated for a pended task is received as the producer's own text |
| BrokerPeers.WireCarriesIds | hw12/broker.c:144-204 | Handling the bytes changes the broker exactly as handling the ids does, and every message dispatched is scanned as the id dispatched |
| BrokerSystem.PollPrefersTasks | hw12/broker.c:125-208 | The broker turns to a worker's message only when no task waits |
| BrokerSystem.PeersMoveIff | hw12/producer.c:46-63 | The producer can send exactly while it has tasks, a worker can move exactly unless it waits for a message, and the broker polls exactly while it is open and something has come, independently of each other |
| BrokerSafety.StepKeepsInv | hw12/broker.c:93-292 | Every step of producer, broker or worker keeps the whole-system invariant |
| BrokerResults.EveryTaskInOnePlace | hw12/broker.c:93-292 | In every reachable state each task id below D is exactly once in: unsent, the producer's channel, pending, with a worker, processed, dropped |
| BrokerResults.EveryWorkerInOnePlace | hw12/worker.c:55-91 | Each worker is unregistered, once in the idle queue, or busy with exactly one task that no other worker, queue or closed list has |
| BrokerResults.NoTaskDispatchedTwice | hw12/broker.c:162-277 | No run dispatches a task twice |
| BrokerResults.StateAtExit | hw12/broker.c:236-248 | When the loop exits, processed plus dropped is D, nothing is sent, pending or in flight any more, and latency samples equal processed tasks |
| BrokerTimes.SendTimes | hw12/producer.c:46-63 | In every state of every run the shared memory holds the time of the step that sent each task |
| BrokerTimes.TotalIsLatencies | hw12/broker.c:236-248 | In every state of every run the latency total is the time from sending to the handling of the DONE, summed over the tasks processed, with one sample each |
| BrokerProgress.StepLowersMeasure | hw12/broker.c:93-292 | Every step of the whole system lowers one measure |
| BrokerProgress.RunsAreBounded | hw12/producer.c:46-63 | Every run with D tasks and W workers has at most 7D + 3W steps, the broker's polls included |
| BrokerProgress.PendingMeansBusy | hw12/broker.c:162-204 | In every reachable state nothing was ever dispatched, or nothing is pending, or some worker is busy |
| BrokerProgress.StuckIncompleteIff | hw12/broker.c:249-290 | A reachable state without a further step has tasks left exactly when tasks are pending and none was ever dispatched |
| BrokerProgress.ReadyFirstCompletes | hw12/broker.c:285-290 | Once a worker was idle before the last task arrived, a state without a further step has all tasks closed, whatever later READYs find pending |
| BrokerProgress.CompletesIff | hw12/broker.c:190-290 | A run that can go no further has closed all its tasks exactly when some worker was idle on it before the last task arrived, or there is no task or no room to pend one |
| BrokerProgress.CanStrandIff | hw12/broker.c:190-204 | A run can get stuck with tasks left exactly when D and Q are at least one, whatever the number of workers |
| BrokerResults.DispatchedInOrder | hw12/broker.c:249-283 | If no READY was handled with tasks pending, idle workers and pending tasks never coexist and tasks are dispatched in increasing id order |
| BrokerResults.IdleBesidePendingIff | hw12/broker.c:285-290 | A run has a state with idle workers beside pending tasks exactly when on it a READY was handled with tasks pending |
| ProcessForest.ChainIsUnique | hw5/pstree.c:100-121 | With distinct pids there is only one way down from a root to a process |
| ProcessForest.CycleIsUnreachable | hw5/pstree.c:148-210 | No cycle of parent pids can be entered from a root |
| ProcessForest.PrintsDescendants | hw5/pstree.c:148-210 | What is printed below a root is exactly its proper descendants |
| ProcessForest.PrintsOnce | hw5/pstree.c:163-209 | No process is printed twice |
| ProcessForest.FreedIsPrinted | hw5/pstree.c:196-208 | The processes freed are the processes printed, each as often |
| ProcessForest.PrintedDownFreedUp | hw5/pstree.c:163-208 | No process is printed before its parent or freed after it |
| ProcessForest.RootsAreApart | hw5/pstree.c:126-145 | Different roots have no process below them in common |
| ProcessLayout.LabelIs | hw5/pstree.c:188-193 | A process is written as its name and its pid in brackets, and the pid reads back exactly when it has at most nine digits |
| ProcessDrawing.LayoutIsDrawn | hw5/pstree.c:163-207 | Whatever the labels: a later sibling stands on a new line behind spaces, a dash comes before each label, dashes fill up to the first child, and nothing else stands between the labels |
| ProcessLayout.LayoutInPlaceIff | hw5/pstree.c:163-207 | With labels free of newlines every process at depth L starts at column 30 L, on its parent's line or on its own, exactly when those of processes with children have at most 29 characters |
| ProcessLayout.RootInPlaceIff | hw5/pstree.c:132-144 | The same for everything below a root that starts at the beginning of a line and has children, whose own label may have 30 characters |
| ProcessLayout.LevelIsDepth | hw5/pstree.c:205 | The level a process is printed at is the number of its ancestors |
| ProcessLayout.MarksArePreorder | hw5/pstree.c:163-207 | The places in the text hold the processes in preorder |
| ProcessLayout.RootNewlines | hw5/pstree.c:167-173 | The newlines printed for a root with children are the leaves of its tree |
| ProcessOutput.PrintedIsWhole | hw5/pstree.c:126-145 | What main prints is the text of the roots one after the other, each with the forest below it |
| ProcessOutput.EndsLine | hw5/pstree.c:143-144 | Whatever roots have been printed, the next one starts at the beginning of a line |
| ProcessOutput.TreeInPlaceIff | hw5/pstree.c:126-145 | In the whole output every process at depth L below a root starts at column 30 L exactly when the labels of that root and of those with children below it fit, whatever the other roots' labels are |
| ProcessOutput.OutputIsDrawn | hw5/pstree.c:126-145 | The same for the whole output: a root's label at the start of its line, dashes up to column 30, the forest below it, and a line end |
| ProcessOutput.LinesAreLeaves | hw5/pstree.c:126-145 | With labels of any length and without newlines the whole output has as many newlines as the trees of all roots have leaves |
| ProcessTable.KeptAre | hw5/pstree.c:75-98 | The processes kept are exactly those with ppid 0, without a parent line, or with a parent that exists, in the order read and each as often |
| ProcessTable.KeptIff | hw5/pstree.c:75-98 | A process is kept exactly when it was read and its ppid is 0 or -1 or its parent exists |
| ProcessTable.ChildrenAreInOrder | hw5/pstree.c:100-121 | The children of a pid are exactly the processes with that ppid, in the order read |
| ProcessTable.RowMissingIff | hw5/pstree.c:154-163 | A process has no row exactly when no recorded process has it as parent; rows are for exactly the ppids recorded other than 0 and -1 |
| ProcessTable.Table.FindRow | hw5/pstree.c:105-113 | The search for a parent's row finds it, or returns -1 exactly when there is none |
| ProcessTable.Table.Record | hw5/pstree.c:81-121 | Recording a process keeps every row the list of the children of its pid, in the order read, and the roots in theirs |
| ProcessTable.Table.Scan | hw5/pstree.c:43-124 | After the scan the table holds exactly the snapshot without the processes whose parent does not exist |
| ProcessTable.Table.Contents | hw5/pstree.c:154-163 | The finished table as printTree reads it: a row for exactly the processes with children |
| ProcessTable.FirstTree | hw5/pstree.c:205-208 | Printing and freeing one child leaves the later children unfreed |
| ProcessTable.RootIsReady | hw5/pstree.c:126-145 | When main comes to a root, nothing below it has been freed for an earlier one |
| ProcessTable.Output.PrintTree | hw5/pstree.c:148-210 | The recursive printing ends, writes exactly the layout of the forest below the process and frees it in postorder, reading no process after it was freed |
| ProcessTable.Output.PrintRoots | hw5/pstree.c:126-145 | main's loop writes the text of every root in order, for roots that have a row |
| ProcessTable.PrintSnapshot | hw5/pstree.c:43-145 | The whole program on a snapshot: the text of the trees of the processes that are not orphans |
| SemBuffer.StepKeepsTally | hw9/prod_cons.c:40-54 | Every step keeps the index equal to the semaphore count plus producers between increment and post plus the consumer between wait and decrement |
| SemBuffer.StepKeepsRange | hw9/prod_cons.c:41-52 | Every step keeps the index between 0 and M - 1 and the consumer off its empty-stack wait and its fallback |
| SemBuffer.StepKeepsBalance | hw9/prod_cons.c:164-173 | Every step keeps the items the consumer has to read equal to those not announced, announced, and in its hands |
| SemBuffer.StepKeepsCells | hw9/prod_cons.c:49-53 | Every step keeps the items in the cells different from each other and every used cell filled |
| SemBuffer.StepKeepsTrace | hw9/prod_cons.c:76-79 | Every step keeps the popped item in its cell until a producer stores and in no cell from then on |
| SemBuffer.StepKeepsSum | hw9/prod_cons.c:173-174 | Numbers pushed are at every step the numbers summed, those still held, and what the reads so far fell short of the items popped |
| SemBuffer.ProcessMovesIff | hw9/prod_cons.c:40-84 | A producer is held up by nothing but the mutex, the consumer by nothing but the mutex and the count of items announced |
| SemResults.SemaphoreCountsStack | hw9/prod_cons.c:69-84 | In every reachable state the counting invariant holds, and the consumer past the semaphore finds the stack non-empty, so its wait and its fallback are never reached |
| SemResults.ReadIsPoppedIff | hw9/prod_cons.c:77-79 | In every reachable state the read after the release returns the popped item exactly when no producer stored since |
| SemResults.FinalSum | hw9/prod_cons.c:163-177 | At the end index and semaphore are 0, and the sum falls short of the numbers pushed by exactly what the reads missed, which is nothing if none of them came after a store into its window |
| SemResults.AllIsPushed | hw9/prod_cons.c:140-151 | At the end every one of the M producers has stored exactly N numbers, each from 0 to 9 |
| SemWrongSum.SumCanBeWrongIff | hw9/prod_cons.c:163-177 | Some run ends with a sum other than that of the numbers pushed exactly when there are at least two producers with at least one number each |
| SemResults.StepWork | hw9/prod_cons.c:40-54 | Every step lowers the work left, except taking the mutex and retrying |
| SemResults.CanFinishIff | hw9/prod_cons.c:140-177 | Every reachable state can be completed, exactly unless there is one producer with something to produce |
| SemResults.CanFinishRight | hw9/prod_cons.c:140-177 | With at least two producers and no read gone wrong, a reachable state can be completed with the right sum |
| SemWrongSum.WrongSumIsReachable | hw9/prod_cons.c:77-79 | An instance: with two producers of one number each, 5 and 7, a run ends with the sum 7 |
| SemMemory.Segment.Push | hw9/prod_cons.c:28-55 | push retries exactly while all but one cell are used, and then appends its pair |
| SemMemory.Segment.Pop | hw9/prod_cons.c:57-85 | pop removes the top; what it returns is the cell at the index when it reads, and the top if nothing was pushed since its release |
| DictConvert.WriteField | hw6/part3/convert.c:86-94 | A field is written and padded with spaces to its width |
| DictConvert.ReadDefinition | hw6/part3/convert.c:72-80 | The definition is read up to a blank line or the end of the file, cut to 479 characters |
| DictConvert.Convert | hw6/part3/convert.c:39-104 | The converter writes one record for each word and definition, or meets a blank line or an overlong word where a word is due |
| DictConvert.ConvertsIff | hw6/part3/convert.c:65-80 | Any input converts exactly when its first line, and every line behind a blank line, is a word of 1 to 31 characters |
| DictLookup.Lookup | hw6/part3/lookup1.c:31-80 | The search returns what the scan of the records for the padded word gives, short last records included |
| DictLookup.Normalise | hw6/part3/lookup1.c:50-75 | The text returned is the tokens of the definition, each with one space behind it, and there is none without a token |
| DictRoundTrip.OutputOfEntries | hw6/part3/convert.c:39-104 | Well-formed entries are converted one record each, in order, and whatever follows them is converted as if it stood alone |
| DictRoundTrip.BadEntryFails | hw6/part3/convert.c:65-66 | After any well-formed entries a second blank line makes the converter use a null pointer, and a word of 32 or more characters does not fit its field |
| DictRoundTrip.OutputOfFile | hw6/part3/convert.c:39-104 | Every well-formed dictionary converts to one record an entry, in order |
| DictRoundTrip.KeysEqualIff | hw6/part3/lookup1.c:31-49 | The padded words compare equal exactly when the words differ at most in trailing spaces |
| DictRoundTrip.ScanFindsFirst | hw6/part3/lookup1.c:40-80 | Scanning the records finds the first entry with the word, whatever the text field held before |
| DictRoundTrip.RoundTrip | hw6/part3/convert.c:39-104 | Converting and looking up: 512 bytes an entry; the definition of the first entry with the word, cut and normalised; not found exactly when no entry has the word |
| DictRoundTrip.NormalisedKeepsTokens | hw6/part3/lookup1.c:50-75 | Normalising keeps the words of the text, and doing it again changes nothing |
| DictRoundTrip.NullTextIff | hw6/part3/lookup1.c:50-75 | There is no text to return exactly when the stored definition is all white space |
| DictRoundTrip.FoundFits | hw6/part3/lookup1.c:75 | Whatever the file and the buffer hold, the text found is at most as long as the field it is copied into |
| DictBytes.LineIs | hw6/part3/convert.c:44-72 | A line is read up to and with a newline, 511 characters at most, and nothing is lost between lines |
| DictBytes.OutputBytes | hw6/part3/convert.c:86-101 | Entry i is bytes 512 i to 512 i + 511: its word and spaces in 32 bytes, and its definition cut to 479 and spaces in 480 |
| DictBytes.SearchTurn | hw6/part3/lookup1.c:40-49 | One turn of the search on any file: 32 bytes of word of which 31 count, up to 480 of text over the old text of which 479 count, and the search goes on behind them |
| DictBytes.AnswerIsClean | hw6/part3/lookup1.c:50-75 | A text returned has no tab, no newline, no space at its start or beside another, and a space at its end; without white space it is the definition |
| DictBytes.FoundIsClean | hw6/part3/lookup1.c:40-80 | The same shape for any text found in any file |
| PingPong.StepMovesToken | hw8/sig_speed_sigsuspend.c:50-71 | Every step of either process passes the one token on or leaves it where it is |
| PingPong.OneToken | hw8/sig_speed_sigsuspend.c:42-71 | In every reachable state of either version there is exactly one token until the child has exited, no signal is merged with a pending one or sent to a process gone, and the events so far follow one script |
| PingPong.StuckIffBothExited | hw8/sig_speed_sigwaitinfo.c:31-60 | Either version has a next step exactly until both processes have exited |
| PingPong.ProcessMovesIff | hw8/sig_speed_sigsuspend.c:54-71 | A process is held up by nothing but the lack of a signal where it waits for one |
| PingPong.ModeDecidesWaiting | hw8/sig_speed_sigwaitinfo.c:46-60 | With sigwaitinfo no process is ever suspended or in the handler; with sigsuspend every receipt takes a suspended process into the handler |
| PingPong.RunsAreBounded | hw8/sig_speed_sigsuspend.c:54-71 | Every run of either version has at most eight steps a signal |
| PingPong.CompleteExchange | hw8/sig_speed_sigwaitinfo.c:43-60 | A finished run of either version has the same events in the same order, and each side has received exactly numSigs signals |
| PingPong.ScriptFollowsLoops | hw8/sig_speed_sigsuspend.c:54-71 | The script, seen from one process, is what its loop does on its own |
| PingPong.ProcessFollowsLoop | hw8/sig_speed_sigsuspend.c:54-71 | In every reachable state of either version what a process has sent and received is a beginning of what its loop does on its own, and all of it at the end |
| PingPong.ParentLoop | hw8/sig_speed_sigsuspend.c:66-71 | The parent's loop taken alone yields the events that the parent has in any run of the two processes: a beginning of them in every reachable state, all of them at the end |
| PingPong.ChildLoop | hw8/sig_speed_sigsuspend.c:55-60 | The same for the child's loop |

## Left out

- ZeroMQ sockets, polling, the monitor socket, shared-memory mapping, fork, exec and printing of messages: channels are FIFO sequences, clocks and random numbers are parameters.
- `hw13`, `hw3`, `hw4`, `hw6/part2`, `hw10` and `hw11` are not part of this model.
- The system models carry task ids; BrokerPeers.WireCarriesIds relates them to the bytes. The broker's event loop is one class, the producer and worker loops are methods on their own, and their interleaving is the step system.
- Payload.TaskIdOfText: numbers outside the range of a C int, on which sscanf is undefined, are scanned as unbounded integers.
- BrokerPeers.Work: the worker's task id is unset when the scan fails (`hw12/worker.c:98-100`), so every message is required to hold an id; the messages the broker sends all do.
- The counted loops of `test2/main_test_stack.c` and of `hw9` are the budgets of the threads in the step systems, not methods of their own.
- The workers of the step system are numbered from 1, as `hw12/program.c:113` starts them; BrokerCore, the event loop included, takes any number.
- SharedStack.Stack.Push: the methods run in one thread and take what other threads do as a parameter; the interleaving itself is in the step systems.
- ProcessTable.Output.PrintTree: printing reads the finished table as a value, and freeing is a list of the processes freed, not of their memory. Reading `/proc` and the messages about orphans are not modelled; whether a parent exists is a parameter. Snapshots fit the arrays of 1024 rows, 256 children and 10 roots.
- ProcessTable.Table.Scan: names are sequences of characters; the enlargement of the allocated copy of a name by the code is not modelled.
- SemBuffer.StepKeepsTrace: the producer's pid in the shared pair is not part of the step system; an item is told apart by who stored it and when. Shared memory starts out zeroed, as a newly created segment does.
- DictConvert.Convert: the input holds no null characters, and errno is 0 at the end of the file; a word of 32 characters or more, which overflows its field, is an error result.
- DictLookup.Lookup: the answer is a sequence of characters; the program copies it without a final null. The record buffer's earlier contents are a parameter.
- PingPong.StepMovesToken: only the one signal is modelled; another signal interrupting the wait, which the code tolerates, is not.
