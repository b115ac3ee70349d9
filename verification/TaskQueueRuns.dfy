/** The main results about the task queue, for every interleaving. */
module TaskQueueRuns {
  import opened TaskQueueMachine

  /** The task that left the queue and is not done. */
  function InFlight<T>(pc: Pc<T>): seq<T> {
    match pc
    case UnlockWithTask(task) => [task]
    case Popped(task) => [task]
    case Running(task) => [task]
    case _ => []
  }

  /** The worker is about to wait, or waits. */
  predicate AtWait<T>(q: Queue<T>) {
    (q.pc.Outer? && !q.owns) || q.pc.LockForWait? || q.pc.Test? || q.pc.Blocked?
  }

  /** The worker's lock is held exactly inside its two locked regions; when the inner loop ends because of a
      stop, it is still held at the outer test. */
  predicate LockFollowsPc<T>(q: Queue<T>) {
    match q.pc
    case Outer => q.owns ==> !q.runWorkerThread
    case Test | Clear | Inner => q.owns
    case Look | UnlockWithTask(_) | UnlockEmpty => q.owns && q.runWorkerThread
    case LockForWait | Blocked(_) | Popped(_) | Running(_) | LockAgain => !q.owns
    case Exited => !q.owns && !q.runWorkerThread
  }

  ghost predicate QueueInv<T>(q: Queue<T>) {
    && !q.misused
    && LockFollowsPc(q)
    && q.pushed == q.done + InFlight(q.pc) + q.tasks
    && (AtWait(q) && (q.tasks != [] || !q.runWorkerThread) ==> q.taskPushed)
    && (q.pc.Blocked? && !q.pc.signalled && q.taskPushed ==> q.toNotify > 0)
    && (q.pc.UnlockEmpty? ==> q.tasks == [])
    && (q.pc.Clear? ==> q.taskPushed)
  }

  lemma InvStep<T>(q: Queue<T>, l: Label<T>)
    requires QueueInv(q) && Enabled(q, l)
    ensures QueueInv(Next(q, l))
  {
  }

  lemma {:induction false} InvHolds<T>(q: Queue<T>, ls: seq<Label<T>>)
    requires QueueInv(q) && CanRun(q, ls)
    ensures QueueInv(Run(q, ls))
  {
    if ls == [] {
    } else {
      InvHolds(q, Front(ls));
      InvStep(Run(q, Front(ls)), Last(ls));
    }
  }

  // ---------- First in, first out ----------

  /** The tasks that the log pushes, in order. */
  function Pushes<T>(ls: seq<Label<T>>): seq<T> {
    if ls == [] then [] else Pushes(Front(ls)) + if Last(ls).LPush? then [Last(ls).task] else []
  }

  /** Over every interleaving of pushes, stops, wake-ups and the worker, what was pushed is what is done, then
      the task in flight, then the queue: nothing is lost, duplicated or overtaken. The worker never misuses
      its lock. */
  lemma {:induction false} FifoConservation<T>(ls: seq<Label<T>>)
    requires CanRun(NewQueue<T>(), ls)
    ensures var q := Run(NewQueue<T>(), ls);
            Pushes(ls) == q.done + InFlight(q.pc) + q.tasks && q.done <= Pushes(ls) && !q.misused
  {
    InvHolds(NewQueue<T>(), ls);
    PushedIsLog(ls);
  }

  lemma PushedStep<T>(q: Queue<T>, l: Label<T>)
    requires Enabled(q, l)
    ensures Next(q, l).pushed == q.pushed + if l.LPush? then [l.task] else []
  {
    match l
    case LPush(_) =>
    case _ => assert Next(q, l).pushed == q.pushed;
  }

  lemma {:induction false} PushedIsLog<T>(ls: seq<Label<T>>)
    requires CanRun(NewQueue<T>(), ls)
    ensures Run(NewQueue<T>(), ls).pushed == Pushes(ls)
  {
    if ls == [] {
    } else {
      PushedIsLog(Front(ls));
      PushedStep(Run(NewQueue<T>(), Front(ls)), Last(ls));
    }
  }

  // ---------- No lost wake-up ----------

  /** The worker can do nothing more on its own: it exited, or it waits and its flag is down. */
  predicate AtRest<T>(q: Queue<T>) {
    q.pc.Exited? || (q.pc.Blocked? && !q.pc.signalled && !q.taskPushed)
  }

  /** What happens next without any new push or stop, and without spurious wake-ups: the worker's statement,
      or, if it is blocked and nobody notified it, a notification that is still owed. */
  function Alone<T>(q: Queue<T>): Label<T> {
    if q.pc.Blocked? && !q.pc.signalled then LNotify else LWork
  }

  /** Statements until the next one that pops or clears the flag. */
  function Rank<T>(q: Queue<T>): nat {
    match q.pc
    case UnlockWithTask(_) => 13
    case Popped(_) => 12
    case Running(_) => 11
    case LockAgain => 10
    case Inner => 9
    case Look => 8
    case UnlockEmpty => 7
    case Outer => 6
    case LockForWait => 5
    case Blocked(signalled) => if signalled then 5 else if q.taskPushed then 6 else 0
    case Test => 4
    case Clear => 3
    case Exited => 0
  }

  lemma AloneMakesProgress<T>(q: Queue<T>)
    requires QueueInv(q) && !AtRest(q)
    ensures Enabled(q, Alone(q))
    ensures var q' := Next(q, Alone(q));
            || |q'.tasks| < |q.tasks|
            || (|q'.tasks| == |q.tasks| && q.taskPushed && !q'.taskPushed)
            || (|q'.tasks| == |q.tasks| && q.taskPushed == q'.taskPushed && Rank(q') < Rank(q))
  {
  }

  /** Everything that the worker does when it is left alone. */
  ghost function Driven<T>(q: Queue<T>): (q': Queue<T>)
    requires QueueInv(q)
    ensures QueueInv(q') && AtRest(q') && q'.pushed == q.pushed && q'.runWorkerThread == q.runWorkerThread
    decreases |q.tasks|, if q.taskPushed then 1 else 0, Rank(q)
  {
    if AtRest(q) then q
    else
      AloneMakesProgress(q);
      InvStep(q, Alone(q));
      Driven(Next(q, Alone(q)))
  }

  /** No lost wake-up: from every reachable state, with no more pushes and with tasks that return, the worker
      gets through everything that was ever pushed, in order, and then waits with an empty queue. */
  lemma DrainsEverything<T>(ls: seq<Label<T>>)
    requires CanRun(NewQueue<T>(), ls) && Run(NewQueue<T>(), ls).runWorkerThread
    ensures QueueInv(Run(NewQueue<T>(), ls))
    ensures var q' := Driven(Run(NewQueue<T>(), ls));
            q'.done == Pushes(ls) && q'.tasks == [] && q'.pc.Blocked? && !q'.owns
  {
    InvHolds(NewQueue<T>(), ls);
    PushedIsLog(ls);
  }

  // ---------- Shutdown ----------

  lemma StopStep<T>(q: Queue<T>, l: Label<T>)
    requires QueueInv(q) && !q.runWorkerThread && Enabled(q, l)
    ensures var q' := Next(q, l);
            && !q'.runWorkerThread && q.tasks <= q'.tasks
            && q'.done + InFlight(q'.pc) == q.done + InFlight(q.pc)
  {
  }

  /** Once stopped, the queue stays stopped, and nothing is popped any more: at most the task that was already
      in flight is still run. */
  lemma {:induction false} NothingPoppedAfterStop<T>(q: Queue<T>, ls: seq<Label<T>>)
    requires QueueInv(q) && !q.runWorkerThread && CanRun(q, ls)
    ensures var q' := Run(q, ls);
            && !q'.runWorkerThread && q.tasks <= q'.tasks
            && q'.done + InFlight(q'.pc) == q.done + InFlight(q.pc)
  {
    if ls == [] {
    } else {
      NothingPoppedAfterStop(q, Front(ls));
      InvHolds(q, Front(ls));
      StopStep(Run(q, Front(ls)), Last(ls));
    }
  }

  /** A stopped worker that is left alone finishes the task in flight, if any, and exits, whatever it was at;
      the lock is released and the queue is left as it is. */
  lemma {:induction false} StoppedWorkerExits<T>(q: Queue<T>)
    requires QueueInv(q) && !q.runWorkerThread
    ensures var q' := Driven(q);
            q'.pc.Exited? && !q'.owns && q'.tasks == q.tasks && q'.done == q.done + InFlight(q.pc)
    decreases |q.tasks|, if q.taskPushed then 1 else 0, Rank(q)
  {
    if !AtRest(q) {
      AloneMakesProgress(q);
      InvStep(q, Alone(q));
      StopStep(q, Alone(q));
      StoppedWorkerExits(Next(q, Alone(q)));
    }
  }

  /** A run that ends in a stopped queue can be completed by the worker alone until it exited. */
  lemma ShutdownCompletes<T>(ls: seq<Label<T>>)
    requires CanRun(NewQueue<T>(), ls) && !Run(NewQueue<T>(), ls).runWorkerThread
    ensures QueueInv(Run(NewQueue<T>(), ls)) && Driven(Run(NewQueue<T>(), ls)).pc.Exited?
    ensures Driven(Run(NewQueue<T>(), ls)).done + Driven(Run(NewQueue<T>(), ls)).tasks == Pushes(ls)
  {
    InvHolds(NewQueue<T>(), ls);
    PushedIsLog(ls);
    StoppedWorkerExits(Run(NewQueue<T>(), ls));
  }
}
