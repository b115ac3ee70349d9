/** The task queue as a machine: one worker, whose program counter moves statement by statement, and any
    number of threads that push, stop and notify. */
module TaskQueueMachine {
  /** Where the worker is; the comments give the statement it executes next. */
  datatype Pc<T> =
    | Outer                     // the outer while tests the run flag
    | LockForWait               // lck.lock()
    | Test                      // wait() tests its predicate, the lock being held
    | Blocked(signalled: bool)  // inside wait(), the lock being released
    | Clear                     // m_taskPushed = false
    | Inner                     // the inner while tests the run flag
    | Look                      // if the queue is not empty: front and pop
    | UnlockWithTask(task: T)   // lck.unlock()
    | Popped(task: T)           // m_processTaskFunc(task) is about to be called
    | Running(task: T)          // the task runs
    | LockAgain                 // lck.lock()
    | UnlockEmpty               // lck.unlock(); break
    | Exited

  datatype Queue<T> = Queue(
    pc: Pc<T>,
    owns: bool,          // the worker holds the lock
    taskPushed: bool,
    runWorkerThread: bool,
    tasks: seq<T>,
    toNotify: nat,       // threads between their critical section and their notify_all()
    pushed: seq<T>,      // history: everything pushed
    done: seq<T>,        // history: everything the processing function returned from
    misused: bool)       // the worker locked a lock it held or unlocked one it did not hold

  function NewQueue<T>(): Queue<T> {
    Queue(Outer, false, false, true, [], 0, [], [], false)
  }

  // ---------- The worker's statements ----------

  function Lock<T>(q: Queue<T>): Queue<T> {
    q.(owns := true, misused := q.misused || q.owns)
  }

  function Unlock<T>(q: Queue<T>): Queue<T> {
    q.(owns := false, misused := q.misused || !q.owns)
  }

  /** The worker's next statement. A blocked worker tests its predicate again once it is woken up. */
  function Work<T>(q: Queue<T>): Queue<T> {
    match q.pc
    case Outer => if q.runWorkerThread then q.(pc := LockForWait) else q.(pc := Exited, owns := false)
    case LockForWait => Lock(q).(pc := Test)
    case Test => if q.taskPushed then q.(pc := Clear) else Unlock(q).(pc := Blocked(false))
    case Blocked(_) => Lock(q).(pc := Test)
    case Clear => q.(taskPushed := false, pc := Inner)
    case Inner => if q.runWorkerThread then q.(pc := Look) else q.(pc := Outer)
    case Look => if q.tasks != [] then q.(tasks := q.tasks[1..], pc := UnlockWithTask(q.tasks[0])) else q.(pc := UnlockEmpty)
    case UnlockWithTask(task) => Unlock(q).(pc := Popped(task))
    case Popped(task) => q.(pc := Running(task))
    case Running(task) => q.(done := q.done + [task], pc := LockAgain)
    case LockAgain => Lock(q).(pc := Inner)
    case UnlockEmpty => Unlock(q).(pc := Outer)
    case Exited => q
  }

  // ---------- The other threads ----------

  function Push<T>(q: Queue<T>, task: T): Queue<T> {
    q.(tasks := q.tasks + [task], taskPushed := true, toNotify := q.toNotify + 1, pushed := q.pushed + [task])
  }

  function Stop<T>(q: Queue<T>): Queue<T> {
    q.(runWorkerThread := false, taskPushed := true, toNotify := q.toNotify + 1)
  }

  function NotifyAll<T>(q: Queue<T>): Queue<T>
    requires q.toNotify > 0
  {
    q.(toNotify := q.toNotify - 1, pc := if q.pc.Blocked? then Blocked(true) else q.pc)
  }

  // ---------- Runs ----------

  datatype Label<T> =
    | LWork       // a statement of the worker; if it is blocked, it was notified
    | LSpurious   // a blocked worker wakes up although nobody notified it
    | LPush(task: T)
    | LStop
    | LNotify

  /** Critical sections need the lock; a blocked worker needs a notification, or wakes up spuriously. */
  predicate Enabled<T>(q: Queue<T>, l: Label<T>) {
    match l
    case LWork => !q.pc.Exited? && (q.pc.Blocked? ==> q.pc.signalled)
    case LSpurious => q.pc.Blocked?
    case LPush(_) => !q.owns
    case LStop => !q.owns
    case LNotify => q.toNotify > 0
  }

  function Next<T>(q: Queue<T>, l: Label<T>): Queue<T>
    requires Enabled(q, l)
  {
    match l
    case LWork => Work(q)
    case LSpurious => Work(q)
    case LPush(task) => Push(q, task)
    case LStop => Stop(q)
    case LNotify => NotifyAll(q)
  }

  function Front<T>(ls: seq<Label<T>>): seq<Label<T>>
    requires ls != []
  {
    ls[..|ls| - 1]
  }

  function Last<T>(ls: seq<Label<T>>): Label<T>
    requires ls != []
  {
    ls[|ls| - 1]
  }

  predicate CanRun<T>(q: Queue<T>, ls: seq<Label<T>>)
    decreases |ls|, 0
  {
    ls == [] || (CanRun(q, Front(ls)) && Enabled(Run(q, Front(ls)), Last(ls)))
  }

  function Run<T>(q: Queue<T>, ls: seq<Label<T>>): Queue<T>
    requires CanRun(q, ls)
    decreases |ls|, 1
  {
    if ls == [] then q else Next(Run(q, Front(ls)), Last(ls))
  }
}
