# Simple Task Queue: a verified model of the persistent queue

Simple Task Queue keeps named queues of commands in SQLite files.  One worker
thread per queue takes the oldest pending task, runs it as a child process and
files it under `done`; any number of clients add, remove, clear and list tasks
meanwhile.  This project models that core in Dafny and proves what it keeps, over
every run and with every statement allowed to fail and a crash allowed anywhere.

`dafny verify dfyconfig.toml` checks everything.

## What is here

| file | content |
|---|---|
| Strings, Codec | string search; the argument codec `splitString`/`concatString` and its exact round trip |
| Tasks | tasks, rows, and the row sequences that stand for tables |
| FifoQueue | the queue as users think of it: every call, pick and finish is one atomic step |
| WorkerSpec | what one pass of `mainLoopInit` or `mainLoopFin` does to tables and flags |
| Protocol | the queue as a transition system: clients, worker, two mutexes, two flags, single SQL statements, crashes |
| ProtocolInvariant, ProtocolData, ProtocolSteps | the invariant of the protocol and the proof that it is inductive |
| OrderTheorems | order of ids, and the ledger of ids |
| Refinement | every run of the protocol is a run of the atomic queue, and clients are told what happened there |
| Answers | what each call is answered, exactly, and what its statements do |
| Deadlock, StopBound, StartStop, Witnesses | circles of waiting threads; what `stop` and `start` guarantee; concrete runs that show what does not hold |
| WorkerAlone, Endless | the worker while no client acts: its actions add up to WorkerSpec; what makes its loop go on for ever |
| Database, SqliteQueue, Schema, Process, Drain | the class `SQLiteQueue` as one thread runs it, over a connection any of whose calls may fail and a child process; opening a file; emptying the queue |
| Reopening | a crash of the protocol, and the object that opens the file again |
| OutputBuffer | the bounded output buffer of `LinuxProc` |
| QueueList | queue names, file names, and loading the list of queues |
| Args | the client's tokenizer and its argument vector |

The queue is modelled twice.  `Protocol` has every interleaving but treats a
statement (prepare, bind, step) as one action with three outcomes: it takes effect,
it is refused before it is stepped, it fails in the step.  `SqliteQueue.Queue` is a
class in the shape of the C++ with every prepare, bind, step and finalize a call of
its own, any of which may fail, but runs on one thread.  The two meet in
`FifoQueue` (client calls) and `WorkerSpec` (the worker): both are proved against them.

## Hypotheses

The code does not enforce these; the results hold under them.

- H1: a new worker begins only after the previous one has ended.  `stopImpl` clears
  `m_isRunning` before the worker has ended (model/dao/sqlitequeue.cpp:1173-1175), and
  `start` sets `m_start` before the assignment of the thread joins the old worker
  (model/dao/sqlitequeue.cpp:207-209).  In the protocol the action that begins the
  worker waits until there is none; the flags may be set before that.
- H2: `SELECT ... limit 1` without ORDER BY and all other scans return rows in insertion order.
- H3: ids stay below 2^31; integers are unbounded here.
- H4: one queue object per database file.
- H5: the flags are read and written in one global order, though the code asks for relaxed order.
- H6: the output buffer holds at least one chunk (CMakeLists.txt:67-69).
  model/proc/linuxproc.cpp spells the constant `STQ_MAX_READ_QUEUE_SIZE` where config.h.in:32
  defines it with the prefix `FF_`; they are taken as the same.
- H7: in the class, every process that was started ends some time (`Spawned` and `Aborted` of `Process.Launch`).  The
  protocol also has processes that never end.
- SQLite: a statement that fails has no effect; column types are reported as they were
  declared, in upper case; a table name occurs at most once in `sqlite_master`.

## Where the code departs from what one may expect

Each of these is modelled as the code has it.

- `removeTaskFromPending` answers NOT_FOUND when the delete *fails in its step*
  (model/dao/sqlitequeue.cpp:903-907), and `mainLoopFin` takes only INVALID_ARGUMENT and OS_ERROR for
  failures (1144-1152).  The task is then recorded as done while its row is still pending, and
  runs again.  So "done is older than pending" holds in general only as "not newer"
  (`OrderAlways`).  The strict order holds in every state of a run exactly if the run has no such
  slip (`StrictRun`), and `SlipHappens` gives a run that has one.  A slip takes a delete of `mainLoopFin` that
  fails in its step (`SlipIff`), so without one each task is done once, in order (`EnteredOnce`).
- For the same reason `removeTask` of an id that is not there answers OK, and NOT_FOUND means a failed step.
- `mainLoopFin` locks the current task before the token, everything else the token first
  (1132, 1142).  The code can deadlock, by `removeTask` and by `clearPending` (`DeadlockHappens`), and by
  no other calls (`OthersNeverDeadlock`).  It does so exactly when such a call takes the token between the two
  locks of `mainLoopFin`, or has taken it when the worker has read the exit code and goes on to its
  second lock (`EmbraceBegins`, `RunCollidesIff`); with the two acquisitions exchanged it never does
  (`ExchangedIsDeadlockFree`).  The exchanged code
  is a variant of the same protocol, chosen by the constant `tokenFirst`; all other results hold for both.
- The worker's loop need not end.  If the select of `mainLoopInit` cannot be prepared, both flags stay set and
  `mainLoop` tries again at once (1079-1087, 1046-1051); `Witnesses.LoopForever` comes back to the same state without end.
  Alone, the worker goes on for ever exactly if from some action on every such select is refused before it is
  stepped, or it waits for a process that never ends (`Endless.EndlessIff`); all other passes are at most one more
  than there are pending tasks (`Endless.SelectedIsBounded`, `SqliteQueue.Queue.MainLoop`).
- Ids start at 0 and an idle current task has id 0, so `removeTask(0)` is refused while idle.
- No arguments at all come back from storage as one empty argument (`Codec.RoundTripFails`).
- An unknown column with an empty type passes `verifyTable`, since looking it up yields the empty string, and the order
  of the columns is not looked at, though rows are written and read by position.  `Schema.WrongTablesOpen` opens a
  file whose task tables have six unknown columns, and one with two columns exchanged.  A table that passes has
  the columns of a task table, in whatever order, exactly if all of its columns have a type (`Schema.TaskColumnsIff`).
  So "good" below means no more than that the tables pass these tests.
- In `connectToDB` the verdict on `pending` is tested three times and the other two never; success still means
  that all three tables are good (`SqliteQueue.Queue.VerifyAll`).
- A file called just `db` is loaded as the queue `db`, and a file `.db` makes loading fail (`QueueList.ParsedIff`).
- `renameQueue(x, x)` erases the queue from the list.
- The list can hold two queue objects on one file, against H4: create x, rename it to y, create x again
  (`QueueList.ShareFile`), or create two names whose paths lead to one file, as x and ./x do
  (`QueueList.ShareByPath`).  It happens exactly when a queue is created on whose file, by its path, another listed
  name has an object (`QueueList.NewObject`).
- `readCurrentOutput` returns only the older half of the buffer, rounded up.
- A launch refused for the super user leaves the exit code of the previous one, which is then filed for the task
  (`StaleCodeIsFiled`; the answer can change between two launches, controller/global/global.cpp:145).  The code filed
  is the status of the task's own child exactly if there was a launch for it that has forked one
  (`FiledWithOwnStatus`).  A child that was killed in an earlier failed launch and is found alive refuses the launch; if
  it has ended by the time the exit code is read, its status is filed for the task.
- `cleanArgv` walks to the new capacity of the argument vector before the array is made anew, so `getArgs` leaves
  the array exactly when there are more arguments than the vector had room for; a first line of seventeen does it
  (`Args.StrayingLine`).

## Model

| member | source | states |
|---|---|---|
| Codec.SplitString | model/dao/sqlitequeue.cpp:916-932 | the find/cut loop computes the splitting that the codec lemmas speak of |
| Codec.ConcatString | model/dao/sqlitequeue.cpp:934-952 | the loop joins with the delimiter between elements and none after the last |
| Codec.ConcatOfSplit | model/dao/sqlitequeue.cpp:916-952 | joining undoes splitting, for every text |
| Codec.SplitIsSeparable | model/dao/sqlitequeue.cpp:916-932 | no result of splitting has an element with the delimiter in it or, before the last, ending in one of its two self-overlaps |
| Codec.SplitOfConcat | model/dao/sqlitequeue.cpp:934-952 | splitting undoes joining for the lists of that kind |
| Codec.RoundTripIff | model/dao/sqlitequeue.cpp:916-952 | an argument list comes back unchanged if and only if it is non-empty, no element contains `__,__` and no element but the last ends in `__,` or `__,_` |
| Codec.NormalForm | model/dao/sqlitequeue.cpp:916-952 | what was read back once is stored as the same text and read back the same ever after |
| Codec.RoundTripFails | model/dao/sqlitequeue.cpp:931-951 | concrete lists that change: the empty one and the two self-overlaps |
| Tasks.RowSurvives | model/dao/sqlitequeue.cpp:1094-1100 | a row read into the current task and written again keeps every stored field, only the exit code changes |
| Tasks.StoredTask | model/dao/sqlitequeue.cpp:790-869 | the columns of a row are the fields of the task one by one, and a task comes back from its row unchanged if and only if its arguments survive storage |
| FifoQueue.OnlyLooksUp | model/dao/sqlitequeue.cpp:746-778 | keeping the last matching row answers exactly whether and how the id is stored |
| Tasks.FrontDeleted | model/dao/sqlitequeue.cpp:871-914 | if no pending id is smaller, deleting an id takes the first row off or leaves everything |
| ProtocolSteps.InvNext | model/dao/sqlitequeue.cpp:114-186 | the invariant (mutex ownership, current task, order, ledger, what the worker has seen) is kept by every action of any client, of the worker, and by a crash |
| ProtocolSteps.ReachableInv | model/dao/sqlitequeue.cpp:1044-1163 | the invariant holds in every state that any run reaches |
| OrderTheorems.OrderAlways | model/dao/sqlitequeue.cpp:1073-1163 | in every reachable state, failures and crashes included: both tables ascend strictly, done <= in flight <= pending, all ids are below lastID |
| OrderTheorems.StrictNext | model/dao/sqlitequeue.cpp:1130-1163 | an action breaks the strict order if and only if it is such a slip: an insert that follows a delete that failed in its step, with the row still there |
| OrderTheorems.StrictRun | model/dao/sqlitequeue.cpp:1130-1163 | a run keeps the strict order in every state if and only if no action of it is a slip |
| OrderTheorems.SlipIff | model/dao/sqlitequeue.cpp:1143-1154 | a task is recorded while still pending if and only if the delete of the same finish was stepped and failed, the insert succeeds and the row has not been cleared meanwhile |
| OrderTheorems.EnteredOnce | model/dao/sqlitequeue.cpp:871-914 | without such a failed delete, each task enters done at most once, in id order, and the insert into done never meets its own id |
| OrderTheorems.DrawnIdIsNew | model/dao/sqlitequeue.cpp:168-180 | an id that addTask has drawn is in neither table and not in flight, so its insert cannot collide |
| OrderTheorems.Conservation | model/dao/sqlitequeue.cpp:168-186 | the ids below lastID are exactly those in pending, done, in flight or being inserted, together with removed, cleared, burned and lost, and no id is in two of these five groups |
| OrderTheorems.LossIsBounded | model/dao/sqlitequeue.cpp:1130-1163 | an action loses at most one task, the one in flight and then in neither table, and only a failed finish or a crash loses any |
| OrderTheorems.BucketsMean | model/dao/sqlitequeue.cpp:142-186 | removed, cleared and burned gain exactly what removeTask deletes, what the clear calls delete, and the id whose insert fails |
| OrderTheorems.EnteredIsDone | model/dao/sqlitequeue.cpp:1153-1160 | the record of entries grows by the id of each row added to done and by nothing else |
| OrderTheorems.FinishRecords | model/dao/sqlitequeue.cpp:142-147 | a finish that succeeds files the row as it was picked, with the new exit code, even if clearPending deleted it meanwhile |
| Refinement.StepRefines | model/dao/sqlitequeue.cpp:114-186 | each action of the protocol is one step of the atomic queue or none |
| Refinement.RunRefines | model/dao/sqlitequeue.cpp:1044-1163 | every run of the protocol is, through the abstraction, a run of the atomic queue from the empty one |
| Refinement.NothingHidden | model/dao/sqlitequeue.cpp:1142-1154 | no client statement ever runs between the delete from pending and the insert into done: the tables a client sees are the abstract ones |
| Refinement.OneEffectPerCall | model/dao/sqlitequeue.cpp:114-186 | a call takes effect exactly once between its begin and its return, with the answer it returns |
| Refinement.AnswersAreEffects | model/dao/sqlitequeue.cpp:114-186 | over a whole run, what a client's calls are answered is, in order, what they did on the atomic queue |
| Refinement.ServedIsListed | model/dao/sqlitequeue.cpp:114-186 | every effect of a run is in the list that these answers are compared with |
| Refinement.ReturnIsListed | model/dao/sqlitequeue.cpp:114-186 | and every answer returned is in the other |
| Answers.StatementAnswered | model/dao/sqlitequeue.cpp:114-186 | a statement that succeeds brings addTask to its next one and every other call to its result (ids of the rows one for one, the task found or NOT_FOUND, the id drawn); one that fails makes the call fail with the code for that |
| Answers.AddStores | model/dao/sqlitequeue.cpp:168-180 | addTask appends one row with the fields of its task and the id it answers |
| Answers.StatementEffects | model/dao/sqlitequeue.cpp:638-914 | what each statement does to the tables and the counter if it succeeds, and that it does nothing if it fails |
| Answers.ControlDecides | model/dao/sqlitequeue.cpp:155-211 | removeTask refuses exactly the id in flight (0 while nothing is), currentTask and start go by m_isRunning, stop does nothing exactly if it is false |
| Answers.RunAnswered | model/dao/sqlitequeue.cpp:114-211 | in every run, a call takes effect with its result if the statement it then ran succeeded, else with the failure; so a call none of whose statements failed has its result |
| Answers.ReturnedAnswer | model/dao/sqlitequeue.cpp:114-211 | in every run, what a call returns was answered in this way by an action of its client during the call |
| Refinement.CrashRefines | model/dao/sqlitequeue.cpp:49-51 | losing everything in memory, at any point, is a crash of the atomic queue: at most the task in flight or one drawn id is gone |
| Reopening.Reopen | model/dao/sqlitequeue.cpp:101-111 | the object that opens the file after a crash at any point of the protocol stands for the queue after a crash of the atomic one; an attempt that fails leaves the tables as the crash left them |
| Deadlock.CirclesNeedFin | model/dao/sqlitequeue.cpp:1130-1142 | in every reachable state every circle of waiting threads contains the worker inside mainLoopFin, holding the current task and waiting for the token |
| Deadlock.EmbraceIsCircle | model/dao/sqlitequeue.cpp:1132-1142 | conversely, that situation with a client waiting for the current task is a circle |
| Deadlock.CircleIff | model/dao/sqlitequeue.cpp:1132-1142 | there is a circle if and only if there is that situation |
| Deadlock.EmbracedCall | model/dao/sqlitequeue.cpp:142-186 | the client in it is inside removeTask or clearPending |
| Deadlock.EmbraceBegins | model/dao/sqlitequeue.cpp:1130-1142 | an action brings it about if and only if such a call takes the token between the two locks of mainLoopFin, or has done so and the worker, having read the exit code, goes on to its second lock |
| Deadlock.RunCollidesIff | model/dao/sqlitequeue.cpp:1130-1142 | a run comes to it if and only if the run has such an action |
| Deadlock.OthersNeverDeadlock | model/dao/sqlitequeue.cpp:114-186 | no run without a call of removeTask or clearPending comes to a circle |
| Deadlock.EmbraceLasts | model/dao/sqlitequeue.cpp:1132-1142 | nothing but a crash ends it |
| Deadlock.ExchangedIsDeadlockFree | model/dao/sqlitequeue.cpp:1132-1142 | with the two acquisitions exchanged no reachable state has a circle |
| Deadlock.WaitingIsServed | model/dao/sqlitequeue.cpp:142-186 | short of that situation, whoever waits for a mutex waits for a thread that can move, or for one that waits for such a thread |
| Deadlock.ClientBlockedIff | model/dao/sqlitequeue.cpp:114-186 | a client cannot move exactly if it waits for a mutex held by another, has no call, or is to begin a worker while there is one |
| Deadlock.WorkerBlockedIff | model/dao/sqlitequeue.cpp:1073-1163 | the worker cannot move exactly if it waits for a mutex or has ended |
| StopBound.AtMostOneMore | model/dao/sqlitequeue.cpp:1046-1070 | with m_start false, or from a failed launch on, and with m_start never set again: at most one more pick and one more entry into done, none once the worker is past the point |
| StopBound.AfterStop | model/dao/sqlitequeue.cpp:1165-1176 | that holds from the moment stop stores m_start |
| StopBound.AfterFailedLaunch | model/dao/sqlitequeue.cpp:1055-1061 | from a failed launch on nothing more is picked, and at most that task is filed, until the queue is started again |
| StopBound.AfterGivingUp | model/dao/sqlitequeue.cpp:1109-1149 | once the worker itself stores m_start = false (nothing pending, a failed finish, or after finishing a task whose launch failed) it picks and finishes nothing until started again |
| StopBound.PickMeans | model/dao/sqlitequeue.cpp:1090-1102 | the picks counted are exactly the actions that bring a task into flight |
| StopBound.FinishMeans | model/dao/sqlitequeue.cpp:1153-1160 | the finishes counted are exactly the actions that add a row to done |
| StopBound.PickedTwice | model/dao/sqlitequeue.cpp:1046-1070 | with two picks the count is at least two |
| StopBound.FinishedTwice | model/dao/sqlitequeue.cpp:1046-1070 | with two finishes the count is at least two |
| StartStop.StopReturns | model/dao/sqlitequeue.cpp:1165-1176 | a call of stop that has found the queue running and returns has stored m_start = false in between; unless somebody has set it since, it is false at the return |
| StartStop.StopBoundReturned | model/dao/sqlitequeue.cpp:1165-1176 | so from the return of the call on, if nobody sets m_start, at most one more pick and one more entry into done |
| StartStop.StartReturns | model/dao/sqlitequeue.cpp:199-211 | a call of start that has found the queue not running and returns has stored m_start = true and then begun the worker |
| StartStop.RunningIsReal | model/dao/sqlitequeue.cpp:188-211 | in every reachable state, if the queue is said to run there is a worker or a client is about to begin one |
| StartStop.CrashClears | model/dao/sqlitequeue.cpp:49-51 | a crash leaves tables and counter as they are and nothing of flags, locks, worker, calls and current task |
| StartStop.LoopCourse | model/dao/sqlitequeue.cpp:1044-1071 | the loop goes on exactly if m_start is set; a task is finished exactly after its launch failed, or after it ran and was found to have ended |
| Witnesses.SlipHappens | model/dao/sqlitequeue.cpp:903-907 | a concrete run after which the same id is pending and done |
| Witnesses.DeadlockHappens | model/dao/sqlitequeue.cpp:142-186 | concrete runs into the deadlock, by removeTask and by clearPending, each while a task finishes |
| Witnesses.LoopForever | model/dao/sqlitequeue.cpp:1079-1087 | a reachable state to which the worker comes back again and again, for ever, while its select is refused |
| Endless.StuckIsAbsent | model/dao/sqlitequeue.cpp:1044-1163 | alone, the worker is never kept waiting by a mutex; it stops only by ending the loop |
| Endless.EndlessIff | model/dao/sqlitequeue.cpp:1046-1068 | alone, the worker goes on for ever if and only if from some action on it waits for a process that never ends, or m_start is set and every select of mainLoopInit is refused before it is stepped |
| Endless.SelectedIsBounded | model/dao/sqlitequeue.cpp:1046-1068 | however long it goes on, its select is not refused at most once for each pending task and once more |
| WorkerAlone.InitAgrees | model/dao/sqlitequeue.cpp:1073-1128 | the protocol's actions for mainLoopInit, undisturbed, add up to the specification the class is proved against |
| WorkerAlone.FinAgrees | model/dao/sqlitequeue.cpp:1130-1163 | the same for mainLoopFin, in both orders of locking |
| SqliteQueue.Queue.CreateTable | model/dao/sqlitequeue.cpp:274-310 | the table is made, empty, exactly if it is not there and no call fails; the statement is finalized on every path |
| SqliteQueue.Queue.VerifyTable | model/dao/sqlitequeue.cpp:312-431 | a verdict other than failure is the true one whatever fails; the statement is finalized on every path |
| SqliteQueue.Queue.CreateID | model/dao/sqlitequeue.cpp:474-520 | the counter starts at 0; a failure may leave the table without its row |
| SqliteQueue.Queue.CheckID | model/dao/sqlitequeue.cpp:527-628 | accepts exactly a single column ID of type INT with a single row, if no call fails |
| SqliteQueue.Queue.VerifyID | model/dao/sqlitequeue.cpp:433-636 | as verifyTable, for the counter and its single row |
| SqliteQueue.Queue.VerifyAll | model/dao/sqlitequeue.cpp:232-271 | whatever fails on the way, success means that all three tables pass their tests; without failures it is Schema.Open |
| SqliteQueue.Queue.ConnectToDB | model/dao/sqlitequeue.cpp:219-272 | the connection is open afterwards exactly on success; existing task rows are untouched, and if all tables are good nothing on disk changes even when it fails |
| SqliteQueue.Queue.ClearTable | model/dao/sqlitequeue.cpp:638-668 | empties the named table and no other, exactly if both calls succeed |
| SqliteQueue.Queue.ListIDInTable | model/dao/sqlitequeue.cpp:670-717 | exactly if no call fails, as many ids as the table has rows, each the id of its row |
| SqliteQueue.Queue.ReadColumns | model/dao/sqlitequeue.cpp:1092-1102 | the task read from a row has its columns one by one, the arguments split |
| SqliteQueue.Queue.ReadRows | model/dao/sqlitequeue.cpp:741-778 | the last matching row is the one that is returned |
| SqliteQueue.Queue.TaskDetails | model/dao/sqlitequeue.cpp:719-788 | the row of the id with its arguments split, NOT_FOUND exactly if there is none and nothing failed |
| SqliteQueue.Queue.BindTask | model/dao/sqlitequeue.cpp:808-854 | six binds, stopping at the first that fails |
| SqliteQueue.Queue.AddTaskToTable | model/dao/sqlitequeue.cpp:790-869 | appends a row with the fields of the task, exactly if no call fails and the id is not in the table |
| SqliteQueue.Queue.RemoveTaskFromPending | model/dao/sqlitequeue.cpp:871-914 | which of its four answers it gives when, and what is deleted |
| SqliteQueue.Queue.ReadCounter | model/dao/sqlitequeue.cpp:970-997 | the last row of the counter table is the one that is used |
| SqliteQueue.Queue.StoreNext | model/dao/sqlitequeue.cpp:1003-1036 | the counter moves on exactly if no call fails |
| SqliteQueue.Queue.GetID | model/dao/sqlitequeue.cpp:954-1042 | hands out the stored value and stores the next, exactly if the counter has one row and no call fails; else the counter is unchanged |
| SqliteQueue.Queue.AddTask | model/dao/sqlitequeue.cpp:168-180 | serves Add of the atomic queue; an id may be used up without a task |
| SqliteQueue.Queue.RemoveTask | model/dao/sqlitequeue.cpp:182-186 | serves Remove of the atomic queue; while idle exactly id 0 is refused |
| SqliteQueue.Queue.ClearPending | model/dao/sqlitequeue.cpp:142-147 | serves ClearPending of the atomic queue; fails exactly if a call does |
| SqliteQueue.Queue.ClearFinished | model/dao/sqlitequeue.cpp:149-153 | serves ClearFinished likewise |
| SqliteQueue.Queue.ListPending | model/dao/sqlitequeue.cpp:114-118 | serves ListPending likewise; the ids of the pending rows, one for one |
| SqliteQueue.Queue.ListFinished | model/dao/sqlitequeue.cpp:120-124 | serves ListFinished likewise; the ids of the done rows, one for one |
| SqliteQueue.Queue.PendingDetails | model/dao/sqlitequeue.cpp:126-132 | serves PendingDetails of the atomic queue; without failures it finds the task exactly if it is pending |
| SqliteQueue.Queue.FinishedDetails | model/dao/sqlitequeue.cpp:134-140 | the same for done |
| SqliteQueue.Queue.CurrentTask | model/dao/sqlitequeue.cpp:155-166 | refused exactly while not running, else the task in flight |
| SqliteQueue.Queue.Stop | model/dao/sqlitequeue.cpp:1165-1176 | clears both flags and kills the child, or does nothing if not running |
| SqliteQueue.Queue.MainLoopInit | model/dao/sqlitequeue.cpp:1073-1128 | picks the first row, or stops, or (if the statement cannot be prepared) leaves the flags for another try |
| SqliteQueue.Queue.MainLoopFin | model/dao/sqlitequeue.cpp:1130-1163 | what is deleted, recorded and stored in m_start for every failure; the recorded exit code is the one read |
| SqliteQueue.Queue.WaitForProcess | model/dao/sqlitequeue.cpp:1062-1065 | polling ends when the child has ended, with its status stored |
| SqliteQueue.Queue.LaunchPicked | model/dao/sqlitequeue.cpp:1054-1065 | when the launch is refused, and which exit code is on record afterwards |
| SqliteQueue.Queue.FilePicked | model/dao/sqlitequeue.cpp:1057-1067 | for the first pending task: nothing is filed while a child still runs, else at most its row with the code read; the loop goes on only if it was filed and was not filed before |
| SqliteQueue.Queue.RunPicked | model/dao/sqlitequeue.cpp:1054-1067 | whatever fails, what is filed is the picked row with the exit code that its launch leaves on record, or with the status of a child left behind; undisturbed, a pass keeps what the loop will leave behind; a pass brings the loop nearer to its end |
| SqliteQueue.Queue.Turn | model/dao/sqlitequeue.cpp:1046-1068 | a pass whose select is refused changes nothing and goes on; every other brings the loop nearer to its end |
| SqliteQueue.Queue.BookedTurn | model/dao/sqlitequeue.cpp:1046-1068 | the same, keeping account of all that was filed |
| SqliteQueue.Queue.MainLoop | model/dao/sqlitequeue.cpp:1044-1071 | of the first limit passes, for any limit: those not refused are at most one more than there are pending tasks, so if processes end only refusals keep the loop going, and for ever if all calls fail; whatever fails, done gains only pending rows, each with the code that is due; undisturbed, it ends within one pass more than there are tasks and leaves exactly the drained tables |
| SqliteQueue.FiledWithOwnStatus | model/dao/sqlitequeue.cpp:1133-1154 | a row filed by the loop bears the wait status of a child launched for it if and only if there was a launch for it and that has forked one |
| SqliteQueue.HeadLeaves | model/dao/sqlitequeue.cpp:1130-1163 | finishing the first task takes exactly its row off the front and files it unchanged but for the exit code |
| DrainSpec.PrefixDrains | model/dao/sqlitequeue.cpp:1044-1071 | while launches succeed, the tasks move over in order with the exit codes of their processes |
| DrainSpec.AllDrain | model/dao/sqlitequeue.cpp:1044-1071 | if all launches succeed, done becomes done ++ pending, row by row with the status of its own process |
| DrainSpec.FailureStopsDrain | model/dao/sqlitequeue.cpp:1055-1061 | if launch k is the first to fail, exactly the tasks through k have moved, task k with the status of its own child, with zero, or with the code before, according to how the launch failed (through k - 1 if the exit code of k cannot be read) |
| DrainSpec.StaleCodeIsFiled | model/proc/linuxproc.cpp:68-75 | a task whose launch is refused for the super user is filed with the status of the task before it |
| Schema.OpensIff | model/dao/sqlitequeue.cpp:232-271 | opening succeeds if and only if all three tables are there and good or none is there |
| Schema.SecondOpenSucceeds | model/dao/sqlitequeue.cpp:232-271 | if the tables that are there are good, a second call succeeds and changes nothing, even after a first that was refused |
| Schema.TaskColumnsIff | model/dao/sqlitequeue.cpp:383-424 | columns that pass the test are, in some order, those of a task table if and only if each has a type |
| Schema.WrongTablesOpen | model/dao/sqlitequeue.cpp:383-424 | files are opened whose task tables have only unknown columns, or two columns exchanged |
| Process.TracksTheChild | model/proc/linuxproc.cpp:123-147 | through any polling the record of the child matches how it first ended |
| Process.ExitStatusIsTheChilds | model/proc/linuxproc.cpp:171-181 | isRunning is true exactly until the child has ended, and exitCode is refused till then and its status ever after |
| Process.FirstEndStays | model/proc/linuxproc.cpp:135-147 | the end of the child that counts is not changed by anything later |
| Process.CodeIsOfLast | model/proc/linuxproc.cpp:60-116 | the exit code on record is exactly what the last launch left that was not refused for the super user (zero if that had no pseudo-terminal), or the first one if there is none |
| Process.OwnStatusIff | model/proc/linuxproc.cpp:60-116 | the exit code on record after a launch is its own child's status if and only if it has forked one, else zero without a pseudo-terminal and unchanged after a refusal |
| Process.LinuxProc.IsRunning | model/proc/linuxproc.cpp:123-147 | one waitpid: reaps once, then fails without overwriting the status |
| Process.LinuxProc.ExitCode | model/proc/linuxproc.cpp:171-181 | the out-parameter is left alone when the process still runs |
| Process.LinuxProc.Stop | model/proc/linuxproc.cpp:266-275 | a child that runs ends with wait status 9 |
| Process.LinuxProc.Start | model/proc/linuxproc.cpp:60-116 | which of the ways to fail resets the exit code and which leaves a child behind |
| OutputBuffer.Buffer.Init | model/proc/linuxproc.cpp:53-58 | the buffer is empty and nothing is counted as written |
| OutputBuffer.Buffer.PushBack | model/proc/linuxproc.cpp:359-368 | the chunk is appended; the oldest one gives way exactly when the buffer is full |
| OutputBuffer.Buffer.ReadCurrentOutput | model/proc/linuxproc.cpp:149-169 | the loop over the shrinking buffer returns exactly the oldest ceil(n/2) chunks in order, each counted as delivered, and leaves the others |
| OutputBuffer.BufferKeepsOrder | model/proc/linuxproc.cpp:359-368 | under any interleaving the capacity is kept, removed chunks followed by buffered ones are all that was written, place by place, and what clients receive is an in-order subsequence of it |
| OutputBuffer.DropsIff | model/proc/linuxproc.cpp:359-368 | an operation drops a chunk if and only if it writes to a full buffer, and then the oldest; short of that a write only appends |
| OutputBuffer.FewWritesDropNone | model/proc/linuxproc.cpp:359-368 | a run that writes no more chunks than fit drops none |
| OutputBuffer.EmptyAfter | model/proc/linuxproc.cpp:163-167 | k calls empty the buffer if and only if it held fewer than 2^k chunks |
| OutputBuffer.CallsToEmpty | model/proc/linuxproc.cpp:163-167 | n >= 1 chunks take exactly floor(log2 n) + 1 calls |
| OutputBuffer.EmptyingDelivers | model/proc/linuxproc.cpp:163-167 | and those calls deliver them all, in order |
| QueueList.ParsedIff | model/dao/sqlitequeuelist.cpp:73-111 | a file is loaded as the queue `name` if and only if it is called name.db, or both are db |
| QueueList.NameRoundTrip | model/dao/sqlitequeue.cpp:101-101 | the path built for a name without a slash parses back to it, dots or not |
| QueueList.FoundMembers | model/dao/sqlitequeuelist.cpp:73-111 | the names found are those of the regular files that parse |
| QueueList.ReloadFinds | model/dao/sqlitequeuelist.cpp:73-111 | from a listing with the database files of a set of names, in any order and among directories and other files, exactly that set is found |
| QueueList.LoadsIff | model/dao/sqlitequeuelist.cpp:73-111 | all that is found can be loaded if and only if no name is empty and every attempt to open succeeds |
| QueueList.NewObject | model/dao/sqlitequeuelist.cpp:143-153 | creating a queue puts two objects on one file if and only if another name leads to an object on the file of its path already |
| QueueList.ShareFile | model/dao/sqlitequeuelist.cpp:116-205 | create, rename and create again: two names, two objects, one file |
| QueueList.ShareByPath | model/dao/sqlitequeuelist.cpp:116-154 | two names whose paths lead to one file have two objects on it |
| QueueList.SQLiteQueueList.OpenQueue | model/dao/sqlitequeue.cpp:59-112 | no name, no attempt; an attempt that is refused may leave a file behind |
| QueueList.SQLiteQueueList.CreateQueue | model/dao/sqlitequeuelist.cpp:116-154 | the list gains a new object exactly if the attempt to open it succeeds, replacing one of that name |
| QueueList.SQLiteQueueList.DeleteQueue | model/dao/sqlitequeuelist.cpp:176-186 | only the entry goes, the file stays |
| QueueList.SQLiteQueueList.RenameQueue | model/dao/sqlitequeuelist.cpp:188-205 | moves the object; renaming to the same name erases it |
| QueueList.SQLiteQueueList.GetQueue | model/dao/sqlitequeuelist.cpp:207-214 | an object is found exactly for the listed names, and no other name ever leads to the same object |
| QueueList.SQLiteQueueList.ListQueue | model/dao/sqlitequeuelist.cpp:156-174 | each name once; NOT_FOUND exactly for the empty list |
| QueueList.SQLiteQueueList.LoadEntry | model/dao/sqlitequeuelist.cpp:104-111 | an entry adds the name it offers or, if that queue cannot be opened, makes loading fail |
| QueueList.SQLiteQueueList.LoadAll | model/dao/sqlitequeuelist.cpp:73-111 | the loop over the entries: all the names they offer or, at the first failure, none |
| QueueList.SQLiteQueueList.Init | model/dao/sqlitequeuelist.cpp:53-114 | all or nothing: exactly the names found, or an empty list |
| QueueList.SQLiteQueueList.Reload | model/dao/sqlitequeuelist.cpp:53-114 | whatever was deleted or renamed since, loading the directory lists exactly the queues whose files were ever made if every attempt to open succeeds, and else nothing |
| Args.TokensAreProper | controller/cli/args.cpp:95-110 | no token has a space, and none but the last is empty |
| Args.TokensKeepText | controller/cli/args.cpp:95-110 | the tokens in a row are the line without its spaces |
| Args.LastToken | controller/cli/args.cpp:110-110 | the last token is what follows the last space, even if empty |
| Args.TokensLaws | controller/cli/args.cpp:95-110 | three laws that fix the tokens of every line: a space in front is dropped, a word before a space comes first, a line without a space is one token |
| Args.TokensOfJoin | controller/cli/args.cpp:95-110 | tokens with the two properties above come back when joined by single spaces and split again |
| Args.RetokenizeIff | controller/cli/args.cpp:95-110 | and only those do |
| Args.Retokenize | controller/cli/args.cpp:95-110 | so for every line, splitting the joined tokens gives the same tokens |
| Args.LettersEntered | controller/cli/args.cpp:84-112 | any number of arguments can be entered on one line |
| Args.FirstLineCounts | controller/cli/args.cpp:84-112 | after any number of empty lines the first other line gives the arguments, whatever follows |
| Args.EmptyLinesCount | controller/cli/args.cpp:84-112 | empty lines alone leave no arguments, and no line at all those there were |
| Args.StrayingLines | controller/cli/args.cpp:114-135 | whatever room the argument vector has, some line has one argument more |
| Args.StrayingLine | controller/cli/args.cpp:114-169 | a first line of seventeen arguments makes getArgs leave the array |
| Args.Arguments.Tokenize | controller/cli/args.cpp:95-110 | the find/erase loop computes the tokens that these lemmas speak of |
| Args.Arguments.ReadTokens | controller/cli/args.cpp:84-112 | empty lines are skipped; a program told to stop at once keeps the old arguments |
| Args.Arguments.CleanArgv | controller/cli/args.cpp:157-169 | frees every buffer and leaves every slot null |
| Args.Arguments.CopyArgs | controller/cli/args.cpp:137-153 | one buffer per argument, closed by NUL, or all of them freed again |
| Args.Arguments.GetArgs | controller/cli/args.cpp:82-155 | the first line that is not empty gives the arguments; it leaves the array if and only if there are more arguments than the vector had room for; otherwise the array mirrors the arguments, all further slots are null and nothing else stays allocated |

## Left out

- SQLite itself and the SQL text: a statement is an operation on row sequences. Embedded NUL bytes and the 32-bit conversions of `bind_int` and `column_int` are not modelled (H3).
- Real processes, pseudo-terminals, epoll, signals and sleeping: a child is a launch outcome, a state and a status. Reuse of process ids, failed forks beyond the failed launch, and `waitpid` on other children are not modelled; the wait of two seconds after a kill is left out.
- Runs with two live workers, or two queue objects on one file (H1, H4): the invariants do not hold there.
- The Windows process, whose output buffer repeats this one; the gRPC client and server; menus, options, YAML, logging; the tables of error texts and the connection classes.
- The call start is an action of the protocol only, as it begins a thread; the class runs the loop of that thread as a method.
- `connectToDB` with more than one table of a name in `sqlite_master`, and the first part of `init`.
- Partial output of listings whose read fails midway, and the task left in the out-parameter of a failed `taskDetails`.
- SqliteQueue.Queue.CountTables: only says that a table is counted at most once and, without failures, exactly if it exists.
- SqliteQueue.Queue.TaskColumnsMatch: only the loop of verifyTable over columns, whose meaning VerifyTable states.
- SqliteQueue.Queue.MainLoop: cut off after a given number of passes, as the loop need not end; runs without end are in Endless.
- Waiting and sleeping: a child ends between two polls, after a number of polls that the model leaves open.
- Args.Arguments.GetArgs: the array made anew for a grown vector is not modelled, since cleanArgv has left the old array before (controller/cli/args.cpp:114-135).
- Names with a slash are not followed into other directories, so the reload result is about names without one.
- Initialising the output buffer is not interleaved with a reader or writer.
