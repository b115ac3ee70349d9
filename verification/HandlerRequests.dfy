/** What users asked for, told from the steps of a run, is what their transactions are made of and end with. */
module HandlerRequests {
  import opened MachineInts
  import opened Timing
  import opened TransactionResults
  import opened HandlerMachine
  import opened HandlerInvariant
  import opened HandlerResults
  import T = TransactionMachine
  import TR = TransactionRuns

  datatype Settings = Settings(mode: RfMode, osVersion: string, defaultTimeout: int32)

  /** The settings made last. */
  function LastSettings(h0: Handler, ss: seq<Step>): Settings {
    if ss == [] then Settings(h0.mode, h0.osVersion, h0.defaultTimeout)
    else
      match ss[|ss| - 1]
      case Configure(mode, osVersion, timeout) => Settings(mode, osVersion, if timeout < 200 then 200 else timeout)
      case _ => LastSettings(h0, ss[..|ss| - 1])
  }

  lemma {:induction false} SettingsFollowLog(h0: Handler, ss: seq<Step>)
    requires CanRun(h0, ss)
    ensures var h := Run(h0, ss); Settings(h.mode, h.osVersion, h.defaultTimeout) == LastSettings(h0, ss)
    decreases |ss|
  {
    if ss == [] {
    } else {
      SettingsFollowLog(h0, ss[..|ss| - 1]);
      SettingsStep(Run(h0, ss[..|ss| - 1]), ss[|ss| - 1]);
    }
  }

  lemma SettingsStep(h: Handler, s: Step)
    requires Enabled(h, s)
    ensures var h' := Next(h, s);
            Settings(h'.mode, h'.osVersion, h'.defaultTimeout)
            == if s.Configure? then Settings(s.mode, s.osVersion, if s.timeout < 200 then 200 else s.timeout)
               else Settings(h.mode, h.osVersion, h.defaultTimeout)
  {
  }

  /** The number of pushes, which numbers the next transaction. */
  function Pushes(ss: seq<Step>): nat {
    if ss == [] then 0 else Pushes(ss[..|ss| - 1]) + if ss[|ss| - 1].Push? then 1 else 0
  }

  /** The transaction is made of what this push asked for, under these settings. */
  predicate IsMadeOf(t: T.Txn, s: Step, settings: Settings)
    requires s.Push?
  {
    && t.defaultError == s.defaultError && t.mode == settings.mode && t.osVersion == settings.osVersion
    && t.request.length == s.request.length
    && t.request.buffer[..s.request.length] == s.request.buffer[..s.request.length]
    && (forall i :: s.request.length <= i < 64 ==> t.request.buffer[i] == 0)
    && Timeouts(t.infinite, t.userTimeout, t.expected) == CorrectedTimeouts(t.request, settings.defaultTimeout, s.userTimeout)
  }

  lemma PushMakes(h: Handler, s: Step)
    requires Enabled(h, s) && s.Push?
    ensures |Next(h, s).entries| == |h.entries| + 1
    ensures IsMadeOf(Next(h, s).entries[|h.entries|].born, s, Settings(h.mode, h.osVersion, h.defaultTimeout))
  {
    TR.NewIsFresh(s.request, h.mode, h.osVersion, h.defaultTimeout, s.userTimeout, s.defaultError);
  }

  lemma BornStays(h: Handler, s: Step)
    requires Enabled(h, s)
    ensures |Next(h, s).entries| == |h.entries| + if s.Push? then 1 else 0
    ensures forall i :: 0 <= i < |h.entries| ==> Next(h, s).entries[i].born == h.entries[i].born
  {
    StepTouchesOne(h, s);
  }

  /** Over every run: the k-th step, if it is a push, makes the transaction whose number is the number of pushes
      before it, out of its own arguments and the settings made last before it. */
  lemma {:induction false} EntryIsPushed(h0: Handler, ss: seq<Step>, k: nat)
    requires h0.entries == [] && CanRun(h0, ss) && k < |ss| && ss[k].Push?
    ensures |Run(h0, ss).entries| == Pushes(ss) && Pushes(ss[..k]) < Pushes(ss)
    ensures IsMadeOf(Run(h0, ss).entries[Pushes(ss[..k])].born, ss[k], LastSettings(h0, ss[..k]))
    decreases |ss|
  {
    var before := ss[..|ss| - 1];
    var h := Run(h0, before);
    EntriesAreCounted(h0, before);
    BornStays(h, ss[|ss| - 1]);
    if k == |ss| - 1 {
      PushMakes(h, ss[k]);
      SettingsFollowLog(h0, before);
    } else {
      EntryIsPushed(h0, before, k);
      assert before[..k] == ss[..k];
    }
  }

  lemma {:induction false} EntriesAreCounted(h0: Handler, ss: seq<Step>)
    requires h0.entries == [] && CanRun(h0, ss)
    ensures |Run(h0, ss).entries| == Pushes(ss)
    decreases |ss|
  {
    if ss == [] {
    } else {
      EntriesAreCounted(h0, ss[..|ss| - 1]);
      BornStays(Run(h0, ss[..|ss| - 1]), ss[|ss| - 1]);
    }
  }

  /** Users get what they ask for: over every run, once the transaction of a push is started, either the pushed
      request was sent, byte for byte, or nothing was, and the transaction ends with the error that the push asked
      for; but with -2 and unsent if at least 16 younger ones were behind it when it was its turn. */
  lemma UserIsHeard(h0: Handler, ss: seq<Step>, k: nat)
    requires IsNewHandler(h0) && CanRun(h0, ss) && k < |ss| && ss[k].Push?
    ensures |Run(h0, ss).entries| == Pushes(ss) && Pushes(ss[..k]) < Pushes(ss)
    ensures var h, i, request := Run(h0, ss), Pushes(ss[..k]), ss[k].request;
            var t, error := h.entries[i].txn, if i in h.younger && h.younger[i] >= 16 then -2 else ss[k].defaultError;
            !t.phase.NotStarted? ==>
              if error == 0 then |t.sent| == 1 && t.sent[0].buffer[..t.sent[0].length] == request.buffer[..request.length]
              else t.sent == [] && (t.finish && t.result.Some? ==> ErrorCode(t.result.value) == error)
  {
    NewHandlerInv(h0);
    InvHolds(h0, ss);
    EntryIsPushed(h0, ss, k);
    var h, i := Run(h0, ss), Pushes(ss[..k]);
    assert h.entries[i] in h.entries && EntryInv(h.entries[i]);
    TR.Fixed(h.entries[i].born, h.entries[i].events);
    if Rejected(h, i) {
      RejectionIsEarned(h, i);
    } else if !h.entries[i].txn.phase.NotStarted? {
      AcceptanceIsKept(h, i);
    }
  }
}
