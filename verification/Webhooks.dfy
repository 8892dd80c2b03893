/**
  What webhooks and bridges are told about a run (crates/hub/src/webhooks.rs): the changes since the
  last time, each with the run's next sequence number.
*/
module Webhooks {
  import opened Wrappers

  /** In the order one update reports them. */
  datatype EventType = Started | Request | RequestResolved | StatusChanged | Progress | Report | Title | Ended

  function Rank(e: EventType): nat {
    match e
    case Started => 0
    case Request => 1
    case RequestResolved => 2
    case StatusChanged => 3
    case Progress => 4
    case Report => 5
    case Title => 6
    case Ended => 7
  }

  function TypeOf(rank: nat): (e: EventType)
    requires rank < 8
    ensures Rank(e) == rank
  {
    match rank
    case 0 => Started
    case 1 => Request
    case 2 => RequestResolved
    case 3 => StatusChanged
    case 4 => Progress
    case 5 => Report
    case 6 => Title
    case _ => Ended
  }

  datatype RunInfo = RunInfo(status: string, request: Option<string>, reportAt: Option<int>,
                             progress: Option<(nat, nat)>, title: Option<string>, ended: bool)

  /** The run as it was last described, and the last sequence number used. */
  datatype RunState = RunState(last: nat, info: RunInfo)

  function LastNo(saved: Option<RunState>): nat { if saved.Some? then saved.value.last else 0 }

  predicate AsksAnew(was: RunInfo, run: RunInfo) { run.request.Some? && run.request != was.request }

  /** What an update says about a run described before. */
  predicate TellsChange(was: RunInfo, run: RunInfo, e: EventType) {
    && !(was.ended && run.ended)
    && match e
       case Started => false
       case Request => AsksAnew(was, run)
       case RequestResolved => was.request.Some? && run.request == None
       case StatusChanged => run.status != was.status && !AsksAnew(was, run) && !run.ended
       case Progress => run.progress != was.progress && run.progress.Some?
       case Report => run.reportAt != was.reportAt && run.reportAt.Some?
       case Title => run.title != was.title && run.title.Some? && !run.ended
       case Ended => run.ended
  }

  predicate Tells(previous: Option<RunState>, run: RunInfo, e: EventType) {
    if previous.Some? then TellsChange(previous.value.info, run, e)
    else e == Started || (e == Request && run.request.Some?) || (e == Ended && run.ended)
  }

  ghost predicate Ranked(s: seq<EventType>) {
    forall i, j :: 0 <= i < j < |s| ==> Rank(s[i]) < Rank(s[j])
  }

  /** What an update tells with the first `n` event types, in order. */
  function ToldOf(previous: Option<RunState>, run: RunInfo, n: nat): seq<EventType>
    requires n <= 8
  {
    if n == 0 then []
    else
      var before := ToldOf(previous, run, n - 1);
      if Tells(previous, run, TypeOf(n - 1)) then before + [TypeOf(n - 1)] else before
  }

  /** Everything an update tells, in order. */
  function Told(previous: Option<RunState>, run: RunInfo): seq<EventType> { ToldOf(previous, run, Rank(Ended) + 1) }

  lemma {:induction false} ToldOfIs(previous: Option<RunState>, run: RunInfo, n: nat)
    requires n <= 8
    ensures Ranked(ToldOf(previous, run, n))
    ensures forall e :: e in ToldOf(previous, run, n) <==> Rank(e) < n && Tells(previous, run, e)
  {
    if n > 0 {
      ToldOfIs(previous, run, n - 1);
      var before := ToldOf(previous, run, n - 1);
      forall e: EventType | Rank(e) == n - 1 ensures e == TypeOf(n - 1) {}
      forall i | 0 <= i < |before| ensures Rank(before[i]) < n - 1 {
        assert before[i] in before;
      }
    }
  }

  /** Exactly the events that apply, each once, in order. */
  ghost predicate ExactlyTells(previous: Option<RunState>, run: RunInfo, events: seq<EventType>) {
    Ranked(events) && forall e :: e in events <==> Tells(previous, run, e)
  }

  lemma ToldIs(previous: Option<RunState>, run: RunInfo)
    ensures ExactlyTells(previous, run, Told(previous, run))
  {
    ToldOfIs(previous, run, 8);
  }

  lemma {:induction false} NothingOnceEnded(previous: RunState, run: RunInfo, n: nat)
    requires previous.info.ended && run.ended && n <= 8
    ensures ToldOf(Some(previous), run, n) == []
  {
    if n > 0 {
      NothingOnceEnded(previous, run, n - 1);
    }
  }

  lemma FirstTold(run: RunInfo)
    ensures Told(None, run) ==
            [Started] + (if run.request.Some? then [Request] else []) + (if run.ended then [Ended] else [])
  {
    assert ToldOf(None, run, 1) == [Started];
    assert ToldOf(None, run, 2) == [Started] + if run.request.Some? then [Request] else [];
    assert ToldOf(None, run, 4) == ToldOf(None, run, 2);
    assert ToldOf(None, run, 6) == ToldOf(None, run, 4);
    assert ToldOf(None, run, 7) == ToldOf(None, run, 6);
  }

  method Changes(previous: Option<RunState>, run: RunInfo) returns (events: seq<EventType>, next: RunState)
    ensures ExactlyTells(previous, run, events)
    ensures events == Told(previous, run)
    ensures next == RunState(LastNo(previous), run)
  {
    next := RunState(LastNo(previous), run);
    ToldIs(previous, run);
    if previous == None {
      events := [Started];
      FirstTold(run);
      if run.request.Some? {
        events := events + [Request];
      }
      if run.ended {
        events := events + [Ended];
      }
      return;
    }
    events := [];
    var was := previous.value.info;
    if was.ended && run.ended {
      NothingOnceEnded(previous.value, run, 8);
      return;
    }
    assert events == ToldOf(previous, run, 1);
    var newRequest := run.request.Some? && run.request != was.request;
    if newRequest {
      events := events + [Request];
    } else if was.request.Some? && run.request == None {
      events := events + [RequestResolved];
    }
    assert events == ToldOf(previous, run, 3);
    if run.status != was.status && !newRequest && !run.ended {
      events := events + [StatusChanged];
    }
    assert events == ToldOf(previous, run, 4);
    if run.progress != was.progress && run.progress.Some? {
      events := events + [Progress];
    }
    assert events == ToldOf(previous, run, 5);
    if run.reportAt != was.reportAt && run.reportAt.Some? {
      events := events + [Report];
    }
    assert events == ToldOf(previous, run, 6);
    if run.title != was.title && run.title.Some? && !run.ended {
      events := events + [Title];
    }
    assert events == ToldOf(previous, run, 7);
    if run.ended && !was.ended {
      events := events + [Ended];
    }
  }

  // ---------- What a reader of the events knows ----------

  /** Nothing told means nothing changed: status and request are the same, and so are a progress, a report
      and a title, unless they are gone. */
  lemma SilenceMeansSame(was: RunState, run: RunInfo)
    requires Told(Some(was), run) == [] && !(was.info.ended && run.ended)
    ensures !run.ended && run.status == was.info.status && run.request == was.info.request
    ensures run.progress.Some? ==> run.progress == was.info.progress
    ensures run.reportAt.Some? ==> run.reportAt == was.info.reportAt
    ensures run.title.Some? ==> run.title == was.info.title
  {
    ToldIs(Some(was), run);
    forall e: EventType ensures !TellsChange(was.info, run, e) {
      assert e in Told(Some(was), run) <==> Tells(Some(was), run, e);
    }
    assert !TellsChange(was.info, run, Request) && !TellsChange(was.info, run, RequestResolved);
    assert !TellsChange(was.info, run, StatusChanged) && !TellsChange(was.info, run, Ended);
    assert !TellsChange(was.info, run, Progress) && !TellsChange(was.info, run, Report);
    assert !TellsChange(was.info, run, Title);
  }

  /** And what is told is a change: of that very thing, and told once. */
  lemma ToldIsChange(was: RunState, run: RunInfo, e: EventType)
    requires e in Told(Some(was), run)
    ensures !was.info.ended || !run.ended
    ensures multiset(Told(Some(was), run))[e] == 1
    ensures match e
            case Started => false
            case Request => run.request.Some? && run.request != was.info.request
            case RequestResolved => was.info.request.Some? && run.request == None
            case StatusChanged => run.status != was.info.status && Request !in Told(Some(was), run) && !run.ended
            case Progress => run.progress.Some? && run.progress != was.info.progress
            case Report => run.reportAt.Some? && run.reportAt != was.info.reportAt
            case Title => run.title.Some? && run.title != was.info.title && !run.ended
            case Ended => run.ended && !was.info.ended
  {
    ToldIs(Some(was), run);
    assert Tells(Some(was), run, e);
    OnceOnly(Told(Some(was), run), e);
    if Request in Told(Some(was), run) {
      assert Tells(Some(was), run, Request);
    }
  }

  lemma {:induction false} OnceOnly(s: seq<EventType>, e: EventType)
    requires Ranked(s) && e in s
    ensures multiset(s)[e] == 1
    decreases |s|
  {
    var n := |s| - 1;
    assert s == s[..n] + [s[n]];
    if s[n] == e {
      forall x <- s[..n] ensures x != e {
        var i :| 0 <= i < n && s[i] == x;
        assert Rank(s[i]) < Rank(s[n]);
      }
    } else {
      assert forall i, j :: 0 <= i < j < n ==> s[..n][i] == s[i] && s[..n][j] == s[j];
      OnceOnly(s[..n], e);
    }
  }

  /** What a reader knows of a run that has not ended is right: the status and the request as they are, and
      the progress, the report and the title, if there are any. */
  ghost predicate UpToDate(known: RunInfo, run: RunInfo) {
    if run.ended then known.ended
    else
      && known.status == run.status && known.request == run.request && !known.ended
      && (run.progress.Some? ==> known.progress == run.progress)
      && (run.reportAt.Some? ==> known.reportAt == run.reportAt)
      && (run.title.Some? ==> known.title == run.title)
  }
}
