/**
  The node's side of the epochs (crates/machine/src/agent_browser/mod.rs): every Start and Stop is
  handled by its own task, so they may arrive in any order; the gate drops what is older than the
  newest it applied. Together with the hub's epochs the node ends up as the viewers want it.
*/
module ScreencastNode {
  import opened Wrappers
  import opened Screencast
  import opened ScreencastLedger
  import opened ScreencastTable
  import opened ScreencastRuns

  /** The newest epoch applied, and what the screencast runs with, if it runs. */
  datatype Cast = Cast(latest: nat, running: Option<Params>)

  /** Epoch 0 is unconditional. */
  predicate Stale(c: Cast, epoch: nat) { epoch != 0 && epoch < c.latest }

  /** A message handled, and whether Chromium accepted a start it asked for. */
  datatype Arrival = Arrival(action: NodeAction, accepted: bool)

  function Arrived(c: Cast, a: Arrival): Cast {
    if a.action.Ack? || Stale(c, a.action.epoch) then c
    else
      Cast(if a.action.epoch != 0 then a.action.epoch else c.latest,
           if a.action.Start? && a.accepted then Some(a.action.params) else None)
  }

  function Settles(c: Cast, arrivals: seq<Arrival>): Cast
    decreases |arrivals|
  {
    if arrivals == [] then c else Settles(Arrived(c, arrivals[0]), arrivals[1..])
  }

  class Tab {
    var latest: nat
    var active: bool
    var params: Params

    function State(): Cast
      reads this
    {
      Cast(latest, if active then Some(params) else None)
    }

    constructor ()
      ensures State() == Cast(0, None)
    {
      latest, active, params := 0, false, Params(0, 0, 0);
    }

    /** `started`: Chromium accepted the start. */
    method ScreencastStart(p: Params, epoch: nat, started: bool)
      modifies this
      ensures State() == Arrived(old(State()), Arrival(Start(p, epoch), started))
    {
      if epoch != 0 {
        if epoch < latest {
          return;
        }
        latest := epoch;
      }
      params := p;
      active := true;
      if !started {
        active := false;
      }
    }

    method ScreencastStop(epoch: nat)
      modifies this
      ensures forall accepted :: State() == Arrived(old(State()), Arrival(Stop(epoch), accepted))
    {
      if epoch != 0 {
        if epoch < latest {
          return;
        }
        latest := epoch;
      }
      active := false;
    }
  }

  ghost predicate Among(told: seq<Entry>, a: NodeAction) { exists i :: 0 <= i < |told| && told[i].action == a }

  /** `a` is one of the messages told, with an epoch the gate compares. */
  ghost predicate WasTold(told: seq<Entry>, a: NodeAction) { Among(told, a) && (Epochal(a) ==> a.epoch > 0) }

  lemma {:induction false} SettlesAppend(c: Cast, a: seq<Arrival>, b: seq<Arrival>)
    ensures Settles(c, a + b) == Settles(Settles(c, a), b)
    decreases |a|
  {
    if a == [] {
      assert a + b == b;
    } else {
      assert (a + b)[1..] == a[1..] + b;
      SettlesAppend(Arrived(c, a[0]), a[1..], b);
    }
  }

  /** Nothing told puts the gate past the newest epoch. */
  lemma {:induction false} NeverPast(told: seq<Entry>, e: nat, c: Cast, arrivals: seq<Arrival>)
    requires EpochsUpTo(told, e) && c.latest <= e
    requires forall a <- arrivals :: WasTold(told, a.action) || a.action == Stop(0)
    ensures Settles(c, arrivals).latest <= e
    decreases |arrivals|
  {
    if arrivals != [] {
      assert arrivals[0] in arrivals;
      NeverPast(told, e, Arrived(c, arrivals[0]), arrivals[1..]);
    }
  }

  /** `newest` is the hub's newest word: what else was told has a lower epoch. */
  ghost predicate IsNewest(told: seq<Entry>, newest: NodeAction) {
    && Epochal(newest) && newest.epoch > 0 && EpochsUpTo(told, newest.epoch)
    && if newest.Start? then NewestIsStart(told, newest.params, newest.epoch) else NewestIsStop(told, newest.epoch)
  }

  lemma OthersAreOlder(told: seq<Entry>, newest: NodeAction, a: NodeAction)
    requires IsNewest(told, newest) && WasTold(told, a) && a != newest
    ensures a.Ack? || 0 < a.epoch < newest.epoch
  {
  }

  /** Once the newest message has arrived, the others change nothing. */
  lemma {:induction false} NewestHolds(told: seq<Entry>, newest: NodeAction, c: Cast, arrivals: seq<Arrival>)
    requires IsNewest(told, newest) && c.latest == newest.epoch
    requires forall a <- arrivals :: WasTold(told, a.action) && a.action != newest
    ensures Settles(c, arrivals) == c
    decreases |arrivals|
  {
    if arrivals != [] {
      assert arrivals[0] in arrivals;
      OthersAreOlder(told, newest, arrivals[0].action);
      NewestHolds(told, newest, c, arrivals[1..]);
    }
  }

  /** Whatever order the messages arrive in, however often, and whichever of the others are lost: the
      node follows the last copy of the newest to arrive, running nothing if Chromium refused it. Before
      that the node may also have stopped everything itself, as it does when the hub goes away. */
  lemma NodeFollowsNewest(
    told: seq<Entry>, c: Cast, before: seq<Arrival>, newest: Arrival, after: seq<Arrival>)
    requires IsNewest(told, newest.action) && c.latest <= newest.action.epoch
    requires forall a <- before :: WasTold(told, a.action) || a.action == Stop(0)
    requires forall a <- after :: WasTold(told, a.action) && a.action != newest.action
    ensures Settles(c, before + [newest] + after).running ==
            if newest.action.Start? && newest.accepted then Some(newest.action.params) else None
  {
    NeverPast(told, newest.action.epoch, c, before);
    SettlesAppend(c, before + [newest], after);
    SettlesAppend(c, before, [newest]);
    var d := Settles(c, before);
    assert Settles(d, [newest]) == Arrived(d, newest);
    NewestHolds(told, newest.action, Arrived(d, newest), after);
  }

  lemma EveryEpochPositive(r: Run, k: Key, n: nat, a: NodeAction)
    requires IsRun(r) && n <= |r.ops| && r.seed > 0 && Among(LedgerAt(r, k, n).told, a)
    ensures WasTold(LedgerAt(r, k, n).told, a)
  {
    RunKeepsKeyOk(r, k, n);
    var i :| 0 <= i < |LedgerAt(r, k, n).told| && LedgerAt(r, k, n).told[i].action == a;
    assert Shaped(LedgerAt(r, k, n).told[i], r.seed, |LedgerAt(r, k, n).frames|);
  }

  /** The hub's newest word on `k`, by its own table. */
  ghost predicate IsNewestWord(t: Table, k: Key, newest: NodeAction) {
    if k in t.fanouts then
      t.fanouts[k].started.Some? && newest == Start(t.fanouts[k].started.value, t.fanouts[k].epoch)
    else k in t.lastEpochs && newest == Stop(t.lastEpochs[k])
  }

  lemma NewestWordIsNewest(r: Run, k: Key, n: nat, newest: NodeAction)
    requires IsRun(r) && n <= |r.ops| && r.seed > 0 && IsNewestWord(r.tables[n], k, newest)
    ensures IsNewest(LedgerAt(r, k, n).told, newest)
    ensures WantedIn(r.tables[n], k) == if newest.Start? then Some(newest.params) else None
  {
    RunKeepsKeyOk(r, k, n);
  }

  /** End to end, for a clock seeded above 0: once the newest message got through (its last copy counts)
      and Chromium accepted it, a browser somebody watches runs exactly what its viewers want, and one
      everybody left is stopped; what Chromium refused does not run. */
  lemma NodeRunsWhatViewersWant(
    r: Run, k: Key, n: nat, before: seq<Arrival>, newest: Arrival, after: seq<Arrival>)
    requires IsRun(r) && n <= |r.ops| && r.seed > 0 && IsNewestWord(r.tables[n], k, newest.action)
    requires forall a <- before :: Among(LedgerAt(r, k, n).told, a.action) || a.action == Stop(0)
    requires forall a <- after :: Among(LedgerAt(r, k, n).told, a.action) && a.action != newest.action
    ensures Settles(Cast(0, None), before + [newest] + after).running ==
            if newest.accepted then WantedIn(r.tables[n], k) else None
  {
    var told := LedgerAt(r, k, n).told;
    NewestWordIsNewest(r, k, n, newest.action);
    forall a | Among(told, a) ensures WasTold(told, a) {
      EveryEpochPositive(r, k, n, a);
    }
    NodeFollowsNewest(told, Cast(0, None), before, newest, after);
  }

  lemma JoinsEmpty(t: Table, k: Key, p: Params)
    requires t == Table(map[], map[], 0, 0)
    ensures JoinEffect(t, k, p).action == Some(Start(p, 1))
    ensures WantedIn(AfterJoin(t, k, p), k) == Some(p)
  {
    var viewers := map[1 := Joining(NewFanout(0), p, Channel(true, []))];
    assert IsWanted(viewers, Some(p)) by { assert 1 in viewers; }
    WantedIsUnique(viewers, Some(p));
    assert JoinEffect(t, k, p) == Reconciled(NewFanout(0).(viewers := viewers));
  }

  lemma LateStopStops(p: Params)
    ensures Settles(Cast(0, None), [Arrival(Start(p, 1), true), Arrival(Stop(0), true)]).running == None
  {
    var start, stop := Arrival(Start(p, 1), true), Arrival(Stop(0), true);
    assert [start, stop][1..] == [stop] && [stop][1..] == [];
    assert Settles(Cast(0, None), [start, stop]) == Settles(Cast(1, Some(p)), [stop]);
    assert Settles(Cast(1, Some(p)), [stop]) == Settles(Cast(1, None), []);
  }

  /** Seeded with 0 (the system clock is before 1970) the hub can answer a straggler with the
      unconditional Stop(0); delivered late, it stops a screencast somebody watches. */
  lemma SeedZeroCanStopAWatchedBrowser(k: Key, frame: Frame, p: Params) returns (r: Run)
    ensures IsRun(r) && r.seed == 0 && |r.ops| == 2
    ensures var told := LedgerAt(r, k, 2).told;
            && |told| == 2 && told[0].action == Stop(0) && told[1].action == Start(p, 1)
            && WantedIn(r.tables[2], k) == Some(p)
            && Settles(Cast(0, None), [Arrival(told[1].action, true), Arrival(told[0].action, true)]).running == None
  {
    var t0 := Table(map[], map[], 0, 0);
    FrameNext(t0, k, frame, t0);
    JoinNext(t0, k, p);
    var e := JoinEffect(t0, k, p);
    r := Run(0, [t0, t0, AfterJoin(t0, k, p)], [OnFrame(k, frame), AddViewer(k, p)],
             [Tell(k, Some(Stop(0))), Tell(k, e.action)]);
    assert StepAt(r, 0) && StepAt(r, 1);
    JoinsEmpty(t0, k, p);
    LedgerIs(r, k, 0);
    LedgerIs(r, k, 1);
    LedgerIs(r, k, 2);
    assert LedgerAt(r, k, 1).told[0].action == Stop(0);
    var told := LedgerAt(r, k, 2).told;
    assert told == LedgerAt(r, k, 1).told + [told[1]] && told[1].action == Start(p, 1);
    LateStopStops(p);
  }
}
