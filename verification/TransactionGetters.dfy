/** Any number of threads in get() beside the engine: who obtains the result, and when. */
module TransactionGetters {
  import opened TransactionResults
  import opened Wrappers
  import opened TransactionMachine
  import opened TransactionRuns
  import opened TransactionOutcomes

  /** Where a thread in get() is: before its first wait, in its second one, or back with a pointer. */
  datatype Getter = Entering | AwaitingFinish | Back(pointer: Option<Result>)

  datatype Session = Session(txn: Txn, getters: seq<Getter>)

  /** A critical section of the engine, or the end of a wait of one getter; timedOut is what wait_for saw. */
  datatype Step = Engine(event: Event) | Getting(who: nat, timedOut: bool)

  predicate StepEnabled(s: Session, step: Step)
    requires Inv(s.txn)
  {
    match step
    case Engine(e) => !e.ETake? && Enabled(s.txn, e)
    case Getting(who, timedOut) =>
      && who < |s.getters| && Unlocked(s.txn)
      && match s.getters[who]
         case Entering => !s.txn.infinite || s.txn.state != Created || timedOut
         case AwaitingFinish => s.txn.finish || timedOut
         case Back(_) => false
  }

  /** The report that a transaction was not started in time. */
  function ReportBusy(t: Txn): (Txn, Getter) {
    (t.(result := None), Back(if t.result.None? then None else Some(WithErrorCode(t.result.value, TRN_ERROR_IFACE_BUSY))))
  }

  /** What a getter does when its wait ends. The first wait happens only for infinite transactions; the report
      after its time-out asks, inside the loop over infinite transactions, that the transaction is not one. */
  function GetterMoves(t: Txn, g: Getter): (Txn, Getter) {
    match g
    case Entering =>
      if t.infinite && t.state == Created && !t.infinite then ReportBusy(t) else (t, AwaitingFinish)
    case AwaitingFinish => if t.finish then (Take(t), Back(t.result)) else (t, g)
    case Back(_) => (t, g)
  }

  function StepTo(s: Session, step: Step): (s': Session)
    requires Inv(s.txn) && StepEnabled(s, step)
    ensures Inv(s'.txn)
  {
    match step
    case Engine(e) => s.(txn := Apply(s.txn, e))
    case Getting(who, _) =>
      var (t, g) := GetterMoves(s.txn, s.getters[who]);
      Session(t, s.getters[who := g])
  }

  predicate CanStep(s: Session, steps: seq<Step>)
    requires Inv(s.txn)
    decreases |steps|, 0
  {
    steps == [] || (CanStep(s, steps[..|steps| - 1]) && StepEnabled(Steps(s, steps[..|steps| - 1]), steps[|steps| - 1]))
  }

  function Steps(s: Session, steps: seq<Step>): (s': Session)
    requires Inv(s.txn) && CanStep(s, steps)
    ensures Inv(s'.txn)
    decreases |steps|, 1
  {
    if steps == [] then s else StepTo(Steps(s, steps[..|steps| - 1]), steps[|steps| - 1])
  }

  /** The critical sections of the transaction among the steps; a getter that obtains the result takes it. */
  function Events(s: Session, steps: seq<Step>): seq<Event>
    requires Inv(s.txn) && CanStep(s, steps)
    decreases |steps|
  {
    if steps == [] then []
    else
      var before := steps[..|steps| - 1];
      Events(s, before) +
      match steps[|steps| - 1]
      case Engine(e) => [e]
      case Getting(who, _) =>
        if Steps(s, before).getters[who].AwaitingFinish? && Steps(s, before).txn.finish then [ETake] else []
  }

  /** Getters do nothing to a transaction but take its result: a session is a run. */
  lemma {:induction false} SessionIsRun(s: Session, steps: seq<Step>)
    requires Inv(s.txn) && CanStep(s, steps)
    ensures CanRun(s.txn, Events(s, steps)) && Run(s.txn, Events(s, steps)) == Steps(s, steps).txn
    decreases |steps|
  {
    if steps == [] {
    } else {
      var before, step := steps[..|steps| - 1], steps[|steps| - 1];
      var es, now := Events(s, before), Steps(s, before);
      SessionIsRun(s, before);
      match step
      case Engine(e) => RunSnoc(s.txn, es, e);
      case Getting(who, _) =>
        if now.getters[who].AwaitingFinish? && now.txn.finish {
          RunSnoc(s.txn, es, ETake);
        } else {
          assert Events(s, steps) == es;
        }
    }
  }

  // ---------- Ownership ----------

  /** Result r has exactly one owner: the transaction, or one of the getters. */
  ghost predicate Owned(s: Session, r: Result) {
    if s.txn.result.Some? then s.txn.result.value == r && forall i :: 0 <= i < |s.getters| ==> !Holds(s.getters[i])
    else exists i :: 0 <= i < |s.getters| && s.getters[i] == Back(Some(r)) &&
                     forall j :: 0 <= j < |s.getters| && j != i ==> !Holds(s.getters[j])
  }

  /** The getter came back with a result; all others that are back got a null pointer. */
  predicate Holds(g: Getter) {
    g.Back? && g.pointer.Some?
  }

  lemma OwnedStep(s: Session, step: Step, r: Result)
    requires Inv(s.txn) && s.txn.finish && StepEnabled(s, step) && Owned(s, r)
    ensures StepTo(s, step).txn.finish && Owned(StepTo(s, step), r)
  {
    var s' := StepTo(s, step);
    match step
    case Engine(e) =>
      assert s'.getters == s.getters && s'.txn.result == s.txn.result;
    case Getting(who, _) =>
      if s.txn.result.Some? {
        if s.getters[who].AwaitingFinish? {
          assert s'.getters[who] == Back(Some(r));
        }
      } else {
        var i :| 0 <= i < |s.getters| && s.getters[i] == Back(Some(r)) &&
                 forall j :: 0 <= j < |s.getters| && j != i ==> !Holds(s.getters[j]);
        assert s'.getters[i] == Back(Some(r));
      }
  }

  predicate NobodyBack(s: Session) {
    forall i :: 0 <= i < |s.getters| ==> !s.getters[i].Back?
  }

  lemma UnfinishedStep(s: Session, step: Step)
    requires Inv(s.txn) && !s.txn.finish && StepEnabled(s, step) && NobodyBack(s)
    ensures var s' := StepTo(s, step);
            && NobodyBack(s')
            && (s'.txn.finish ==> step.Engine? && step.event.EWake? && s'.txn.result.Some? && Owned(s', s'.txn.result.value))
  {
  }

  /** Before the end nobody is back; afterwards the result of the end, at event k, has one owner. */
  ghost predicate Settled(s: Session, t0: Txn, es: seq<Event>, k: nat)
    requires Inv(t0) && CanRun(t0, es)
  {
    if !s.txn.finish then NobodyBack(s)
    else EndsAt(t0, es, k) && Run(t0, es[..k + 1]).result.Some? && Owned(s, Run(t0, es[..k + 1]).result.value)
  }

  /** Main result. Nobody comes back before the transaction finished; then the result of its end has exactly
      one owner for ever, so at most one get() obtains it and every other one gets a null pointer. */
  lemma {:induction false} OneOwner(s0: Session, steps: seq<Step>) returns (k: nat)
    requires IsFresh(s0.txn) && CanStep(s0, steps) && NobodyBack(s0)
    ensures CanRun(s0.txn, Events(s0, steps)) && Run(s0.txn, Events(s0, steps)) == Steps(s0, steps).txn
    ensures Settled(Steps(s0, steps), s0.txn, Events(s0, steps), k)
    decreases |steps|
  {
    SessionIsRun(s0, steps);
    if steps == [] {
      k := 0;
    } else {
      var before := steps[..|steps| - 1];
      k := OneOwner(s0, before);
      k := OwnerStep(s0, steps, k);
    }
  }

  lemma OwnerStep(s0: Session, steps: seq<Step>, k: nat) returns (k': nat)
    requires IsFresh(s0.txn) && CanStep(s0, steps) && steps != []
    requires CanRun(s0.txn, Events(s0, steps)) && Run(s0.txn, Events(s0, steps)) == Steps(s0, steps).txn
    requires var before := steps[..|steps| - 1];
             && CanRun(s0.txn, Events(s0, before)) && Run(s0.txn, Events(s0, before)) == Steps(s0, before).txn
             && Settled(Steps(s0, before), s0.txn, Events(s0, before), k)
    ensures Settled(Steps(s0, steps), s0.txn, Events(s0, steps), k')
  {
    var before, step := steps[..|steps| - 1], steps[|steps| - 1];
    var es, es' := Events(s0, before), Events(s0, steps);
    var s := Steps(s0, before);
    if s.txn.finish {
      k' := k;
      OwnedStep(s, step, Run(s0.txn, es[..k + 1]).result.value);
      EndStays(s0.txn, es, es', k);
    } else {
      k' := |es|;
      UnfinishedStep(s, step);
      if StepTo(s, step).txn.finish {
        assert es'[..k'] == es && es'[..k' + 1] == es';
      }
    }
  }

  /** A step that dereferences the result pointer finds it there: the result is moved out only when no step
      that needs it can come any more. */
  lemma NoUseAfterMove(s0: Session, steps: seq<Step>, e: Event)
    requires IsFresh(s0.txn) && CanStep(s0, steps) && StepEnabled(Steps(s0, steps), Engine(e))
    requires Dereferences(Steps(s0, steps).txn, e)
    ensures Steps(s0, steps).txn.result.Some?
  {
  }
}
