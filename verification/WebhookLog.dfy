/**
  A run's event log as an integration that gets everything sees it, over any sequence of updates
  (crates/hub/src/webhooks.rs, crates/hub/src/db/integrations.rs).
*/
module WebhookLog {
  import opened Wrappers
  import opened Webhooks
  import opened Sequences

  datatype Entry = Entry(no: nat, event: EventType)

  /** The saved state and everything told so far. */
  datatype Log = Log(saved: Option<RunState>, told: seq<Entry>)

  /** Queuing and saving are not one transaction: an update may stop after some of its entries, and
      then the state is not saved. */
  datatype Fault = Fine | Cut(queued: nat)

  /** `Forget` is the purge of runs that ended a week ago. */
  datatype Op = Update(run: RunInfo, fault: Fault) | Forget

  const EMPTY_LOG := Log(None, [])

  function Numbered(events: seq<EventType>, first: nat): (entries: seq<Entry>)
    ensures |entries| == |events|
  {
    seq(|events|, i requires 0 <= i < |events| => Entry(first + i, events[i]))
  }

  function EntriesOf(saved: Option<RunState>, run: RunInfo): seq<Entry> {
    Numbered(Told(saved, run), LastNo(saved) + 1)
  }

  /** The state an update saves. */
  function NextState(saved: Option<RunState>, run: RunInfo): RunState {
    RunState(LastNo(saved) + |Told(saved, run)|, run)
  }

  function AfterUpdate(log: Log, run: RunInfo, fault: Fault): Log {
    var entries := EntriesOf(log.saved, run);
    match fault
    case Fine => Log(Some(NextState(log.saved, run)), log.told + entries)
    case Cut(queued) => Log(log.saved, log.told + AtMost(entries, queued))
  }

  predicate MayForget(log: Log) { log.saved.Some? && log.saved.value.info.ended }

  function After(log: Log, op: Op): Log
    requires op.Forget? ==> MayForget(log)
  {
    match op
    case Update(run, fault) => AfterUpdate(log, run, fault)
    case Forget => Log(None, log.told)
  }

  /** Whether a request is open, by the last event about requests. */
  predicate Asking(told: seq<Entry>)
    decreases |told|
  {
    if told == [] then false
    else
      var last := told[|told| - 1].event;
      last == Request || (last != RequestResolved && Asking(told[..|told| - 1]))
  }

  /** 1..n with no gap or repeat. */
  ghost predicate WellNumbered(told: seq<Entry>) {
    forall i :: 0 <= i < |told| ==> told[i].no == i + 1
  }

  /** Started comes first and only there, Ended only at the end. */
  ghost predicate Framed(told: seq<Entry>) {
    && (told != [] ==> told[0].event == Started)
    && (forall i :: 0 < i < |told| ==> told[i].event != Started)
    && (forall i :: 0 <= i < |told| && told[i].event == Ended ==> i == |told| - 1)
  }

  ghost predicate Over(told: seq<Entry>) { told != [] && told[|told| - 1].event == Ended }

  /** The log tells the saved state. */
  ghost predicate Faithful(log: Log) {
    match log.saved
    case None => log.told == []
    case Some(state) =>
      && log.told != [] && state.last == |log.told|
      && (Over(log.told) <==> state.info.ended)
      && (!state.info.ended ==> (Asking(log.told) <==> state.info.request.Some?))
  }

  ghost predicate WellTold(log: Log) { WellNumbered(log.told) && Framed(log.told) && Faithful(log) }

  lemma {:induction false} AskingAfter(told: seq<Entry>, events: seq<EventType>, first: nat)
    requires !(Request in events && RequestResolved in events)
    ensures Asking(told + Numbered(events, first)) <==>
            Request in events || (RequestResolved !in events && Asking(told))
    decreases |events|
  {
    if events == [] {
      assert told + Numbered(events, first) == told;
    } else {
      var n := |events| - 1;
      var all := told + Numbered(events, first);
      assert all[..|all| - 1] == told + Numbered(events[..n], first);
      assert events == events[..n] + [events[n]];
      AskingAfter(told, events[..n], first);
    }
  }

  lemma FramedAfter(log: Log, run: RunInfo)
    requires WellTold(log) && (log.saved.Some? && log.saved.value.info.ended ==> run.ended)
    ensures Framed(AfterUpdate(log, run, Fine).told)
    ensures Over(AfterUpdate(log, run, Fine).told) <==> run.ended
  {
    var events := Told(log.saved, run);
    ToldIs(log.saved, run);
    var told := AfterUpdate(log, run, Fine).told;
    if log.saved == None {
      FirstTold(run);
    } else if log.saved.value.info.ended {
      NothingOnceEnded(log.saved.value, run, 8);
    }
    if events != [] {
      assert events[|events| - 1] in events;
      assert run.ended ==> Ended in events;
    }
    forall i | 0 <= i < |told| && told[i].event == Ended ensures i == |told| - 1 {
      if i >= |log.told| {
        assert told[i].event == events[i - |log.told|];
      }
    }
    forall i | 0 < i < |told| ensures told[i].event != Started {
      if i >= |log.told| {
        var k := i - |log.told|;
        assert told[i].event == events[k] && events[k] in events;
      }
    }
  }

  lemma RequestsTold(saved: Option<RunState>, run: RunInfo)
    requires !run.ended
    ensures var told := Told(saved, run);
            && !(Request in told && RequestResolved in told)
            && (Request in told ==> run.request.Some?) && (RequestResolved in told ==> run.request == None)
            && (Request !in told && RequestResolved !in told ==>
                  (run.request.Some? <==> saved.Some? && saved.value.info.request.Some?))
    ensures saved == None ==> Told(saved, run) != []
  {
    ToldIs(saved, run);
    if saved == None {
      FirstTold(run);
    }
  }

  lemma FaithfulAfter(log: Log, run: RunInfo)
    requires WellTold(log) && (Over(AfterUpdate(log, run, Fine).told) <==> run.ended)
    requires log.saved.Some? && log.saved.value.info.ended ==> run.ended
    ensures Faithful(AfterUpdate(log, run, Fine))
  {
    if !run.ended {
      RequestsTold(log.saved, run);
      AskingAfter(log.told, Told(log.saved, run), LastNo(log.saved) + 1);
    } else if log.saved == None {
      FirstTold(run);
    }
  }

  /** A faultless update in which `ended` does not revert keeps the log well told. */
  lemma UpdateKeepsWellTold(log: Log, run: RunInfo)
    requires WellTold(log) && (log.saved.Some? && log.saved.value.info.ended ==> run.ended)
    ensures WellTold(AfterUpdate(log, run, Fine))
  {
    FramedAfter(log, run);
    FaithfulAfter(log, run);
  }

  function AfterAll(runs: seq<RunInfo>): Log
    decreases |runs|
  {
    if runs == [] then EMPTY_LOG else AfterUpdate(AfterAll(runs[..|runs| - 1]), runs[|runs| - 1], Fine)
  }

  ghost predicate NeverReverts(runs: seq<RunInfo>) {
    forall i, j :: 0 <= i < j < |runs| && runs[i].ended ==> runs[j].ended
  }

  lemma {:induction false} UpdatesKeepWellTold(runs: seq<RunInfo>)
    requires NeverReverts(runs)
    ensures WellTold(AfterAll(runs))
    ensures runs != [] ==> AfterAll(runs).saved.Some? && AfterAll(runs).saved.value.info == runs[|runs| - 1]
    decreases |runs|
  {
    if runs != [] {
      UpdatesKeepWellTold(runs[..|runs| - 1]);
      UpdateKeepsWellTold(AfterAll(runs[..|runs| - 1]), runs[|runs| - 1]);
    }
  }

  /** The log of a run, however it changes: numbered 1..n, started once and first, ended at most once
      and last, exactly when the run has ended; until then its last word on requests is right. */
  lemma LogIsWellTold(runs: seq<RunInfo>)
    requires runs != [] && NeverReverts(runs)
    ensures var told := AfterAll(runs).told;
            var now := runs[|runs| - 1];
            && (forall i :: 0 <= i < |told| ==> told[i].no == i + 1)
            && told != [] && (forall i :: 0 <= i < |told| ==> (told[i].event == Started <==> i == 0))
            && (forall i :: 0 <= i < |told| && told[i].event == Ended ==> i == |told| - 1)
            && (told[|told| - 1].event == Ended <==> now.ended)
            && (!now.ended ==> (Asking(told) <==> now.request.Some?))
  {
    UpdatesKeepWellTold(runs);
  }

  lemma {:induction false} NothingNew(state: RunState, n: nat)
    requires n <= 8
    ensures ToldOf(Some(state), state.info, n) == []
  {
    if n > 0 {
      NothingNew(state, n - 1);
    }
  }

  /** Repeating an update adds nothing, whatever happened before. */
  lemma RepeatAddsNothing(log: Log, run: RunInfo)
    ensures var once := AfterUpdate(log, run, Fine);
            AfterUpdate(once, run, Fine) == once
  {
    var once := AfterUpdate(log, run, Fine);
    NothingNew(once.saved.value, 8);
    assert once.told + EntriesOf(once.saved, run) == once.told;
  }

  /** The run as whoever reads the events knows it: each brings the run as it is then. */
  function Known(runs: seq<RunInfo>): Option<RunInfo>
    decreases |runs|
  {
    if runs == [] then None
    else
      var before, run := runs[..|runs| - 1], runs[|runs| - 1];
      if Told(AfterAll(before).saved, run) == [] then Known(before) else Some(run)
  }

  /** Over any updates in which `ended` does not revert: what a reader knows is right, however many updates
      told nothing. */
  lemma {:induction false} ReaderIsUpToDate(runs: seq<RunInfo>)
    requires runs != [] && NeverReverts(runs)
    ensures Known(runs).Some? && UpToDate(Known(runs).value, runs[|runs| - 1])
    decreases |runs|
  {
    var before, run := runs[..|runs| - 1], runs[|runs| - 1];
    if before == [] {
      FirstTold(run);
    } else if Told(AfterAll(before).saved, run) == [] {
      UpdatesKeepWellTold(before);
      ReaderIsUpToDate(before);
      if !run.ended {
        SilenceMeansSame(AfterAll(before).saved.value, run);
      } else if !before[|before| - 1].ended {
        SilenceMeansSame(AfterAll(before).saved.value, run);
      }
    }
  }
}
