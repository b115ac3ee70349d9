/** The task queue object: critical sections that change the fields in place, and the worker's nested loops. */
module TaskQueues {
  import opened TaskQueueMachine
  import opened TaskQueueRuns

  /** What another thread does while the worker does not hold the lock; its notification follows at once. */
  datatype Act<T> = DoPush(task: T) | DoStop

  function Section<T>(act: Act<T>): Label<T> {
    match act
    case DoPush(task) => LPush(task)
    case DoStop => LStop
  }

  function ActLog<T>(acts: seq<Act<T>>): seq<Label<T>> {
    if acts == [] then [] else ActLog(acts[..|acts| - 1]) + [Section(acts[|acts| - 1]), LNotify]
  }

  /** The state after these acts. */
  function After<T>(q: Queue<T>, acts: seq<Act<T>>): (q': Queue<T>)
    requires !q.owns
    ensures !q'.owns && (q'.pc == q.pc || (q.pc.Blocked? && q'.pc.Blocked?))
  {
    if acts == [] then q
    else NotifyAll(Next(After(q, acts[..|acts| - 1]), Section(acts[|acts| - 1])))
  }

  lemma {:induction false} AfterIsRun<T>(q: Queue<T>, acts: seq<Act<T>>)
    requires !q.owns
    ensures CanRun(q, ActLog(acts)) && Run(q, ActLog(acts)) == After(q, acts)
    decreases |acts|
  {
    if acts == [] {
    } else {
      var before, last := acts[..|acts| - 1], acts[|acts| - 1];
      AfterIsRun(q, before);
      assert ActLog(acts) == ActLog(before) + [Section(last), LNotify] == (ActLog(before) + [Section(last)]) + [LNotify];
      RunSnoc(q, ActLog(before), Section(last));
      RunSnoc(q, ActLog(before) + [Section(last)], LNotify);
    }
  }

  lemma RunSnoc<T>(q: Queue<T>, ls: seq<Label<T>>, l: Label<T>)
    requires CanRun(q, ls) && Enabled(Run(q, ls), l)
    ensures CanRun(q, ls + [l]) && Run(q, ls + [l]) == Next(Run(q, ls), l)
  {
    assert Front(ls + [l]) == ls && Last(ls + [l]) == l;
  }

  lemma AfterSnoc<T>(q: Queue<T>, acts: seq<Act<T>>, i: nat)
    requires !q.owns && i < |acts|
    ensures After(q, acts[..i + 1]) == NotifyAll(Next(After(q, acts[..i]), Section(acts[i])))
  {
    assert acts[..i + 1][..i] == acts[..i];
  }

  /** Statements before or in which the others may act; elsewhere the worker has the lock, or its next
      statement does not depend on them. */
  predicate Releases<T>(q: Queue<T>) {
    !q.owns && (q.pc.Outer? || q.pc.LockForWait? || q.pc.Blocked? || q.pc.Running?)
  }

  /** The worker's execution when the others do env[k] at the k-th point where it lets them; it ends when the
      worker exits or env is used up. */
  ghost function Play<T>(q: Queue<T>, env: seq<seq<Act<T>>>): (q': Queue<T>)
    requires QueueInv(q)
    ensures QueueInv(q')
    decreases |env|, |q.tasks|, if q.taskPushed then 1 else 0, Rank(q)
  {
    if q.pc.Exited? then q
    else if Releases(q) then
      if env == [] then q else PlayInv(q, env[0]); Play(Work(After(q, env[0])), env[1..])
    else
      InvStep(q, LWork); WorkMakesProgress(q); Play(Work(q), env)
  }

  lemma WorkMakesProgress<T>(q: Queue<T>)
    requires QueueInv(q) && !q.pc.Exited? && !q.pc.Blocked?
    ensures var q' := Work(q);
            || |q'.tasks| < |q.tasks|
            || (|q'.tasks| == |q.tasks| && q.taskPushed && !q'.taskPushed)
            || (|q'.tasks| == |q.tasks| && q.taskPushed == q'.taskPushed && Rank(q') < Rank(q))
  {
    AloneMakesProgress(q);
  }

  lemma PlayInv<T>(q: Queue<T>, acts: seq<Act<T>>)
    requires QueueInv(q) && Releases(q)
    ensures QueueInv(After(q, acts)) && QueueInv(Work(After(q, acts)))
  {
    AfterIsRun(q, acts);
    InvHolds(q, ActLog(acts));
    InvStep(After(q, acts), if q.pc.Blocked? then LSpurious else LWork);
  }

  /** The labels of an execution. */
  ghost function PlayLog<T>(q: Queue<T>, env: seq<seq<Act<T>>>): seq<Label<T>>
    requires QueueInv(q)
    decreases |env|, |q.tasks|, if q.taskPushed then 1 else 0, Rank(q)
  {
    if q.pc.Exited? then []
    else if Releases(q) then
      if env == [] then []
      else
        PlayInv(q, env[0]);
        ActLog(env[0]) + [if q.pc.Blocked? then LSpurious else LWork] + PlayLog(Work(After(q, env[0])), env[1..])
    else
      InvStep(q, LWork); WorkMakesProgress(q); [LWork] + PlayLog(Work(q), env)
  }

  lemma {:induction false} RunConcat<T>(q: Queue<T>, a: seq<Label<T>>, b: seq<Label<T>>)
    requires CanRun(q, a) && CanRun(Run(q, a), b)
    ensures CanRun(q, a + b) && Run(q, a + b) == Run(Run(q, a), b)
    decreases |b|
  {
    if b == [] {
      assert a + b == a;
    } else {
      RunConcat(q, a, Front(b));
      assert Front(a + b) == a + Front(b) && Last(a + b) == Last(b);
    }
  }

  lemma RunOne<T>(q: Queue<T>, l: Label<T>)
    requires Enabled(q, l)
    ensures CanRun(q, [l]) && Run(q, [l]) == Next(q, l)
  {
    assert Front([l]) == [];
  }

  /** Every execution of the worker's loops is a run of the machine. */
  lemma {:induction false} PlayIsRun<T>(q: Queue<T>, env: seq<seq<Act<T>>>)
    requires QueueInv(q)
    ensures CanRun(q, PlayLog(q, env)) && Run(q, PlayLog(q, env)) == Play(q, env)
    decreases |env|, |q.tasks|, if q.taskPushed then 1 else 0, Rank(q)
  {
    if q.pc.Exited? {
    } else if Releases(q) {
      if env != [] {
        var l := if q.pc.Blocked? then LSpurious else LWork;
        PlayInv(q, env[0]);
        AfterIsRun(q, env[0]);
        RunOne(After(q, env[0]), l);
        RunConcat(q, ActLog(env[0]), [l]);
        PlayIsRun(Work(After(q, env[0])), env[1..]);
        RunConcat(q, ActLog(env[0]) + [l], PlayLog(Work(After(q, env[0])), env[1..]));
      }
    } else {
      InvStep(q, LWork);
      WorkMakesProgress(q);
      RunOne(q, LWork);
      PlayIsRun(Work(q), env);
      RunConcat(q, [LWork], PlayLog(Work(q), env));
    }
  }

  // ---------- An execution goes on as long as it can ----------

  /** What the others did, as far as the log says. */
  function ActsOf<T>(ls: seq<Label<T>>): seq<Act<T>> {
    if ls == [] then []
    else
      ActsOf(Front(ls)) + match Last(ls)
                          case LPush(task) => [DoPush(task)]
                          case LStop => [DoStop]
                          case _ => []
  }

  function AllActs<T>(env: seq<seq<Act<T>>>): seq<Act<T>> {
    if env == [] then [] else env[0] + AllActs(env[1..])
  }

  lemma {:induction false} ActsOfConcat<T>(a: seq<Label<T>>, b: seq<Label<T>>)
    ensures ActsOf(a + b) == ActsOf(a) + ActsOf(b)
    decreases |b|
  {
    if b == [] {
      assert a + b == a;
    } else {
      assert Front(a + b) == a + Front(b) && Last(a + b) == Last(b);
      ActsOfConcat(a, Front(b));
    }
  }

  lemma {:induction false} ActsOfActLog<T>(acts: seq<Act<T>>)
    ensures ActsOf(ActLog(acts)) == acts
    decreases |acts|
  {
    if acts == [] {
    } else {
      var before, last := ActLog(acts[..|acts| - 1]), Section(acts[|acts| - 1]);
      ActsOfActLog(acts[..|acts| - 1]);
      assert ActLog(acts) == (before + [last]) + [LNotify];
      assert Front(ActLog(acts)) == before + [last] && Front(before + [last]) == before;
    }
  }

  lemma ActsOfTurn<T>(acts: seq<Act<T>>, l: Label<T>, rest: seq<Label<T>>)
    requires l.LWork? || l.LSpurious?
    ensures ActsOf(ActLog(acts) + [l] + rest) == acts + ActsOf(rest)
  {
    assert Front([l]) == [];
    ActsOfActLog(acts);
    ActsOfConcat(ActLog(acts), [l]);
    ActsOfConcat(ActLog(acts) + [l], rest);
  }

  lemma TurnPlays<T>(q: Queue<T>, env: seq<seq<Act<T>>>)
    requires QueueInv(q) && !q.pc.Exited? && Releases(q) && env != []
    ensures var q' := Work(After(q, env[0]));
            && QueueInv(q') && Play(q', env[1..]) == Play(q, env)
            && ActsOf(PlayLog(q, env)) == env[0] + ActsOf(PlayLog(q', env[1..]))
  {
    PlayInv(q, env[0]);
    ActsOfTurn(env[0], if q.pc.Blocked? then LSpurious else LWork, PlayLog(Work(After(q, env[0])), env[1..]));
  }

  lemma StepPlays<T>(q: Queue<T>, env: seq<seq<Act<T>>>)
    requires QueueInv(q) && !q.pc.Exited? && !Releases(q)
    ensures QueueInv(Work(q)) && Play(Work(q), env) == Play(q, env)
    ensures ActsOf(PlayLog(q, env)) == ActsOf(PlayLog(Work(q), env))
  {
    InvStep(q, LWork);
    ActsOfTurn([], LWork, PlayLog(Work(q), env));
    assert ActLog<T>([]) + [LWork] + PlayLog(Work(q), env) == PlayLog(q, env);
  }

  /** An execution lets the others do what env asks for, in order. It ends at the exit of the worker, or, with all of
      that done, at a statement where the others may act again. */
  lemma {:induction false} PlayGoesOn<T>(q: Queue<T>, env: seq<seq<Act<T>>>)
    requires QueueInv(q)
    ensures ActsOf(PlayLog(q, env)) <= AllActs(env)
    ensures Play(q, env).pc.Exited? || (Releases(Play(q, env)) && ActsOf(PlayLog(q, env)) == AllActs(env))
    decreases |env|, |q.tasks|, if q.taskPushed then 1 else 0, Rank(q)
  {
    if q.pc.Exited? {
    } else if !Releases(q) {
      WorkMakesProgress(q);
      StepPlays(q, env);
      PlayGoesOn(Work(q), env);
    } else if env != [] {
      TurnPlays(q, env);
      PlayGoesOn(Work(After(q, env[0])), env[1..]);
    }
  }

  /** A statement where the others cannot act is the next thing that happens. */
  lemma WorkPlays<T>(q: Queue<T>, env: seq<seq<Act<T>>>)
    requires QueueInv(q) && !q.pc.Exited? && !Releases(q)
    ensures QueueInv(Work(q)) && Play(Work(q), env) == Play(q, env)
  {
    InvStep(q, LWork);
  }

  // Stretches of several statements in which the others cannot act.

  lemma BlockPlays<T>(q: Queue<T>, env: seq<seq<Act<T>>>)
    requires QueueInv(q) && q.pc.Test? && !q.taskPushed
    ensures var q' := q.(owns := false, pc := Blocked(false)); QueueInv(q') && Play(q', env) == Play(q, env)
  {
    WorkPlays(q, env);
  }

  lemma ClearPlays<T>(q: Queue<T>, env: seq<seq<Act<T>>>)
    requires QueueInv(q) && q.pc.Test? && q.taskPushed
    ensures var q' := q.(taskPushed := false, pc := Inner); QueueInv(q') && Play(q', env) == Play(q, env)
  {
    WorkPlays(q, env);
    WorkPlays(Work(q), env);
  }

  lemma PopPlays<T>(q: Queue<T>, env: seq<seq<Act<T>>>)
    requires QueueInv(q) && q.pc.Inner? && q.runWorkerThread && q.tasks != []
    ensures var q' := q.(tasks := q.tasks[1..], owns := false, pc := Running(q.tasks[0]));
            QueueInv(q') && Play(q', env) == Play(q, env)
  {
    WorkPlays(q, env);
    WorkPlays(Work(q), env);
    WorkPlays(Work(Work(q)), env);
    WorkPlays(Work(Work(Work(q))), env);
  }

  lemma EmptyPlays<T>(q: Queue<T>, env: seq<seq<Act<T>>>)
    requires QueueInv(q) && q.pc.Inner? && q.runWorkerThread && q.tasks == []
    ensures var q' := q.(owns := false, pc := Outer); QueueInv(q') && Play(q', env) == Play(q, env)
  {
    WorkPlays(q, env);
    WorkPlays(Work(q), env);
    WorkPlays(Work(Work(q)), env);
  }

  class TaskQueue<T> {
    var tasks: seq<T>
    var taskPushed: bool
    var runWorkerThread: bool
    var lockOwned: bool  // the state of the worker's unique_lock
    ghost var pc: Pc<T>
    ghost var toNotify: nat
    ghost var pushed: seq<T>
    ghost var done: seq<T>
    ghost var misused: bool

    ghost function View(): Queue<T>
      reads this
    {
      Queue(pc, lockOwned, taskPushed, runWorkerThread, tasks, toNotify, pushed, done, misused)
    }

    constructor ()
      ensures View() == NewQueue() && QueueInv(View())
    {
      tasks, taskPushed, runWorkerThread, lockOwned := [], false, true, false;
      pc, toNotify, pushed, done, misused := Outer, 0, [], [], false;
    }

    method PushToQueue(task: T) returns (size: int)
      requires !lockOwned
      modifies this
      ensures View() == NotifyAll(Push(old(View()), task)) && size == |old(tasks)| + 1
    {
      tasks := tasks + [task];
      size := |tasks|;
      taskPushed := true;
      pushed := pushed + [task];
      Notify();
    }

    method StopQueue()
      requires !lockOwned
      modifies this
      ensures View() == NotifyAll(Stop(old(View())))
    {
      runWorkerThread := false;
      taskPushed := true;
      Notify();
    }

    method Size() returns (size: nat)
      requires !lockOwned
      ensures size == |tasks|
    {
      size := |tasks|;
    }

    ghost method Notify()
      modifies this`pc
      ensures pc == if old(pc).Blocked? then Blocked(true) else old(pc)
    {
      pc := if pc.Blocked? then Blocked(true) else pc;
    }

    /** The other threads' turn. */
    method LetOthers(acts: seq<Act<T>>)
      requires QueueInv(View()) && Releases(View())
      modifies this
      ensures View() == After(old(View()), acts) && done == old(done)
      ensures QueueInv(View()) && QueueInv(Work(View()))
    {
      PlayInv(View(), acts);
      ghost var q := View();
      for i := 0 to |acts|
        invariant !lockOwned && View() == After(q, acts[..i]) && done == old(done)
      {
        AfterSnoc(q, acts, i);
        match acts[i]
        case DoPush(task) =>
          var _ := PushToQueue(task);
        case DoStop =>
          StopQueue();
      }
      assert acts[..|acts|] == acts;
    }

    method LockMutex()
      modifies this`lockOwned, this`misused
      ensures lockOwned && misused == (old(misused) || old(lockOwned))
    {
      misused := misused || lockOwned;
      lockOwned := true;
    }

    method UnlockMutex()
      modifies this`lockOwned, this`misused
      ensures !lockOwned && misused == (old(misused) || !old(lockOwned))
    {
      misused := misused || !lockOwned;
      lockOwned := false;
    }

    /** The others' turn at the k-th release point. */
    method Release(env: seq<seq<Act<T>>>, k: nat)
      requires QueueInv(View()) && Releases(View()) && k < |env|
      modifies this
      ensures View() == After(old(View()), env[k]) && done == old(done)
      ensures QueueInv(View()) && QueueInv(Work(View())) && Play(Work(View()), env[k + 1..]) == Play(old(View()), env[k..])
    {
      LetOthers(env[k]);
      assert env[k..][1..] == env[k + 1..];
    }

    /** One round of the wait: the lock is released, and taken again at the wake-up. */
    method BlockOnce(env: seq<seq<Act<T>>>, k: nat) returns (blocked: bool)
      requires QueueInv(View()) && pc.Test? && !taskPushed && k <= |env|
      modifies this
      ensures QueueInv(View()) && done == old(done)
      ensures if blocked then k == |env| && Releases(View()) && Play(View(), env[k..]) == Play(old(View()), env[k..])
              else k < |env| && pc.Test? && lockOwned && Play(View(), env[k + 1..]) == Play(old(View()), env[k..])
    {
      BlockPlays(View(), env[k..]);
      UnlockMutex();
      pc := Blocked(false);
      blocked := k == |env|;
      if !blocked {
        Release(env, k);
        LockMutex();
        pc := Test;
      }
    }

    /** From lck.lock() through the wait to the reset of the flag; `waiting` means that env is used up. */
    method AwaitTask(env: seq<seq<Act<T>>>, k0: nat) returns (k: nat, waiting: bool)
      requires QueueInv(View()) && pc.LockForWait? && k0 <= |env|
      modifies this
      ensures QueueInv(View()) && k0 <= k <= |env| && done == old(done)
      ensures Play(View(), env[k..]) == Play(old(View()), env[k0..])
      ensures if waiting then k == |env| && Releases(View()) else k > k0 && pc.Inner? && lockOwned
    {
      k, waiting := k0, true;
      if k == |env| {
        return;
      }
      Release(env, k);
      k := k + 1;
      LockMutex();
      pc := Test;
      while !taskPushed
        invariant k0 < k <= |env| && done == old(done) && pc.Test? && lockOwned && QueueInv(View())
        invariant Play(View(), env[k..]) == Play(old(View()), env[k0..])
        decreases |env| - k
      {
        waiting := BlockOnce(env, k);
        if waiting {
          return;
        }
        k := k + 1;
      }
      ClearPlays(View(), env[k..]);
      taskPushed := false;
      pc := Inner;
      waiting := false;
    }

    /** The inner loop's body with a task: pop, unlock, process, lock; `busy` means that env is used up. */
    method ProcessFirst(env: seq<seq<Act<T>>>, k: nat) returns (busy: bool, task: T)
      requires QueueInv(View()) && pc.Inner? && runWorkerThread && |tasks| > 0 && k <= |env|
      modifies this
      ensures QueueInv(View())
      ensures if busy then k == |env| && Releases(View()) && done == old(done) && Play(View(), env[k..]) == Play(old(View()), env[k..])
              else k < |env| && pc.Inner? && lockOwned && done == old(done) + [task]
                   && Play(View(), env[k + 1..]) == Play(old(View()), env[k..])
    {
      PopPlays(View(), env[k..]);
      task := tasks[0];
      tasks := tasks[1..];
      UnlockMutex();
      pc := Running(task);
      busy := k == |env|;
      if !busy {
        FinishTask(env, k, task);
      }
    }

    /** The task returns and the lock is taken for the next test of the inner loop. */
    method FinishTask(env: seq<seq<Act<T>>>, k: nat, ghost task: T)
      requires QueueInv(View()) && pc == Running(task) && !lockOwned && k < |env|
      modifies this
      ensures QueueInv(View()) && pc.Inner? && lockOwned && done == old(done) + [task]
      ensures Play(View(), env[k + 1..]) == Play(old(View()), env[k..])
    {
      Release(env, k);
      done := done + [task];
      pc := LockAgain;
      WorkPlays(View(), env[k + 1..]);
      LockMutex();
      pc := Inner;
    }

    /** The inner loop; `busy` means that env was used up while a task ran. */
    method ProcessTasks(env: seq<seq<Act<T>>>, k0: nat) returns (k: nat, busy: bool, processed: seq<T>)
      requires QueueInv(View()) && pc.Inner? && lockOwned && k0 <= |env|
      modifies this
      ensures QueueInv(View()) && k0 <= k <= |env| && done == old(done) + processed
      ensures Play(View(), env[k..]) == Play(old(View()), env[k0..])
      ensures if busy then k == |env| && Releases(View()) else pc.Outer?
    {
      k, processed := k0, [];
      while runWorkerThread
        invariant k0 <= k <= |env| && done == old(done) + processed && pc.Inner? && lockOwned && QueueInv(View())
        invariant Play(View(), env[k..]) == Play(old(View()), env[k0..])
        decreases |env| - k
      {
        if |tasks| > 0 {
          var task;
          busy, task := ProcessFirst(env, k);
          if busy {
            return;
          }
          k := k + 1;
          processed := processed + [task];
        } else {
          EmptyPlays(View(), env[k..]);
          UnlockMutex();
          pc := Outer;
          return k, false, processed;
        }
      }
      WorkPlays(View(), env[k..]);
      pc := Outer;
      busy := false;
    }

    /** One pass of the outer loop, without the tests before and after it; `stuck` means that env is used up. */
    method PassOnce(env: seq<seq<Act<T>>>, k0: nat) returns (k: nat, stuck: bool, processed: seq<T>)
      requires QueueInv(View()) && pc.LockForWait? && k0 <= |env|
      modifies this
      ensures QueueInv(View()) && k0 <= k <= |env| && done == old(done) + processed
      ensures Play(View(), env[k..]) == Play(old(View()), env[k0..])
      ensures if stuck then k == |env| && Releases(View()) else k > k0 && pc.Outer?
    {
      processed := [];
      k, stuck := AwaitTask(env, k0);
      if !stuck {
        k, stuck, processed := ProcessTasks(env, k);
      }
    }

    /** The execution that ends in `goal` has come to a test of the outer loop, or, stuck, to its end. */
    ghost predicate Pending(env: seq<seq<Act<T>>>, stuck: bool, goal: Queue<T>)
      reads this
    {
      QueueInv(View()) &&
      if stuck then View() == goal else pc.Outer? && QueueInv(Work(View())) && Play(Work(View()), env) == goal
    }

    /** Up to the next test of the outer loop: the others may act before it, unless the inner loop kept the lock. */
    method ToOuterTest(env: seq<seq<Act<T>>>, k0: nat) returns (k: nat, stuck: bool)
      requires QueueInv(View()) && pc.Outer? && k0 <= |env|
      modifies this
      ensures k0 <= k <= |env| && done == old(done) && Pending(env[k..], stuck, Play(old(View()), env[k0..]))
    {
      k, stuck := k0, false;
      if lockOwned {
        WorkPlays(View(), env[k..]);
      } else if k == |env| {
        stuck := true;
      } else {
        Release(env, k);
        k := k + 1;
      }
    }

    /** The body of the outer loop and the way to its next test. */
    method Round(env: seq<seq<Act<T>>>, k0: nat, ghost goal: Queue<T>) returns (k: nat, stuck: bool, processed: seq<T>)
      requires k0 <= |env| && Pending(env[k0..], false, goal) && runWorkerThread
      modifies this
      ensures k0 <= k <= |env| && done == old(done) + processed && (stuck || k > k0) && Pending(env[k..], stuck, goal)
    {
      pc := LockForWait;
      k, stuck, processed := PassOnce(env, k0);
      if !stuck {
        k, stuck := ToOuterTest(env, k);
      }
    }

    /** The worker's thread function. The others do env[k] at its k-th release point; it returns when it exits
        or when env is used up. `processed` lists the tasks the processing function returned from. */
    method Worker(env: seq<seq<Act<T>>>) returns (processed: seq<T>)
      requires QueueInv(View()) && pc.Outer? && !lockOwned
      modifies this
      ensures View() == Play(old(View()), env) && QueueInv(View())
      ensures done == old(done) + processed
    {
      ghost var goal := Play(View(), env);
      assert env[0..] == env;
      var k, stuck := ToOuterTest(env, 0);
      processed := [];
      while !stuck && runWorkerThread
        invariant 0 <= k <= |env| && done == old(done) + processed && Pending(env[k..], stuck, goal)
        decreases !stuck, |env| - k
      {
        var more;
        k, stuck, more := Round(env, k, goal);
        processed := processed + more;
      }
      if !stuck {
        pc := Exited;
        lockOwned := false;
      }
    }
  }
}
