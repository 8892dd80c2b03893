/** The loop around the connector process (crates/hub/src/cloud_connector.rs): at most one child at a
    time, killed only for a reason, and started again after the delay its history gives. */
module Supervisor {
  import opened Wrappers
  import opened Connector

  /** What the loop meets, one at a time; `shutdown` wins over whatever else is ready. */
  datatype Happening =
    | Shutdown(killed: bool)
    | Exits(waited: bool)
    | Probe(health: Health, at: nat, killed: bool)
    | Elapses(spawned: bool)

  datatype Act =
    | Spawned
    | Saw(health: Health, at: nat)
    | Exited
    | Killed(shutdown: bool)
    | Slept(delay: nat)

  /** How an act changes the number of children. */
  function Births(a: Act): int {
    match a
    case Spawned => 1
    case Exited => -1
    case Killed(_) => -1
    case Saw(_, _) => 0
    case Slept(_) => 0
  }

  /** The children alive after these acts. */
  function Alive(acts: seq<Act>): int
    decreases |acts|
  {
    if acts == [] then 0 else Alive(acts[..|acts| - 1]) + Births(acts[|acts| - 1])
  }

  function EventsOf(a: Act): seq<Event> {
    match a
    case Saw(health, at) => [Observed(health, at)]
    case Slept(_) => [Restarted]
    case Spawned => []
    case Exited => []
    case Killed(_) => []
  }

  /** The history of probes and restarts in these acts. */
  function History(acts: seq<Act>): seq<Event>
    decreases |acts|
  {
    if acts == [] then [] else History(acts[..|acts| - 1]) + EventsOf(acts[|acts| - 1])
  }

  /** Act `a` has a reason after `before`. */
  ghost predicate Justified(p: Policy, before: seq<Act>, a: Act) {
    match a
    case Spawned => Alive(before) == 0
    case Saw(_, _) => Alive(before) == 1
    case Exited => Alive(before) == 1
    case Killed(shutdown) => Alive(before) == 1 && (!shutdown ==> LastAllDown(History(before), p.failures))
    case Slept(delay) => Alive(before) == 0 && delay == Backoff(p, Restarts(p, History(before)))
  }

  ghost predicate AllJustified(p: Policy, acts: seq<Act>)
    decreases |acts|
  {
    acts != [] ==> AllJustified(p, acts[..|acts| - 1]) && Justified(p, acts[..|acts| - 1], acts[|acts| - 1])
  }

  lemma One(p: Policy, acts: seq<Act>, a: Act)
    requires AllJustified(p, acts) && Justified(p, acts, a)
    ensures AllJustified(p, acts + [a])
    ensures Alive(acts + [a]) == Alive(acts) + Births(a) && History(acts + [a]) == History(acts) + EventsOf(a)
  {
    assert (acts + [a])[..|acts + [a]| - 1] == acts;
  }

  /** Old and new connectors never overlap: at no moment are two children alive. */
  lemma {:induction false} NeverTwo(p: Policy, acts: seq<Act>, n: nat)
    requires AllJustified(p, acts) && n <= |acts|
    ensures 0 <= Alive(acts[..n]) <= 1
    decreases |acts|
  {
    if n < |acts| {
      assert acts[..n] == acts[..|acts| - 1][..n];
      NeverTwo(p, acts[..|acts| - 1], n);
    } else if acts != [] {
      assert acts[..n] == acts;
      NeverTwo(p, acts[..|acts| - 1], |acts| - 1);
      assert acts[..|acts| - 1][..|acts| - 1] == acts[..|acts| - 1];
    }
  }

  /** A connector that lives is only ever killed at shutdown, or after the configured number of
      consecutive failed checks since the last restart. */
  lemma {:induction false} KilledForAReason(p: Policy, acts: seq<Act>, i: nat)
    requires AllJustified(p, acts) && i < |acts| && acts[i] == Killed(false)
    ensures LastAllDown(History(acts[..i]), p.failures)
    decreases |acts|
  {
    if i < |acts| - 1 {
      assert acts[..i] == acts[..|acts| - 1][..i];
      KilledForAReason(p, acts[..|acts| - 1], i);
    }
  }

  // ---------- What must happen ----------

  /** The pause after a connector went: the delay its history gives. */
  function Pause(p: Policy, acts: seq<Act>): Act { Slept(Backoff(p, Restarts(p, History(acts)))) }

  /** A check that asks for a restart. */
  ghost predicate Alarms(p: Policy, acts: seq<Act>, h: Happening) {
    h.Probe? && LastAllDown(History(acts + [Saw(h.health, h.at)]), p.failures)
  }

  /** What must be done about a happening, while a connector runs or during a pause. */
  ghost function Due(p: Policy, before: seq<Act>, h: Happening): seq<Act> {
    if Alive(before) == 1 then
      match h
      case Shutdown(killed) => if killed then [Killed(true)] else []
      case Exits(waited) => if waited then [Exited, Pause(p, before + [Exited])] else []
      case Probe(health, at, killed) =>
        var seen := Saw(health, at);
        if Alarms(p, before, h) && killed then [seen, Killed(false), Pause(p, before + [seen, Killed(false)])]
        else [seen]
      case Elapses(_) => []
    else if h == Elapses(true) then [Spawned]
    else []
  }

  /** How a happening ends the loop, if it does. */
  ghost function EndOf(p: Policy, before: seq<Act>, h: Happening): Option<Result<(), ()>> {
    if Alive(before) == 1 then
      match h
      case Shutdown(killed) => Some(if killed then Ok(()) else Err(()))
      case Exits(waited) => if waited then None else Some(Err(()))
      case Probe(_, _, killed) => if Alarms(p, before, h) && !killed then Some(Err(())) else None
      case Elapses(_) => None
    else if h.Shutdown? then Some(Ok(()))
    else if h == Elapses(false) then Some(Err(()))
    else None
  }

  /** `trace[i]` is what was done before happening `i`; everything due was done, and none but the last one met
      ended it. */
  ghost predicate IsTrace(
    p: Policy, spawned: bool, happenings: seq<Happening>, trace: seq<seq<Act>>, result: Option<Result<(), ()>>)
  {
    && 0 < |trace| <= |happenings| + 1
    && trace[0] == (if spawned then [Spawned] else [])
    && (forall i :: 0 <= i < |trace| - 1 ==> trace[i + 1] == trace[i] + Due(p, trace[i], happenings[i]))
    && (forall i :: 0 <= i < |trace| - 2 ==> EndOf(p, trace[i], happenings[i]) == None)
    && (if !spawned then |trace| == 1 && result == Some(Err(()))
        else result == if |trace| == 1 then None else EndOf(p, trace[|trace| - 2], happenings[|trace| - 2]))
    && (result == None ==> |trace| == |happenings| + 1)
  }

  lemma AliveOne(acts: seq<Act>, a: Act)
    ensures Alive(acts + [a]) == Alive(acts) + Births(a)
  {
    assert (acts + [a])[..|acts|] == acts;
  }

  lemma {:induction false} AliveMore(acts: seq<Act>, more: seq<Act>)
    ensures Alive(acts + more) == Alive(acts) + Alive(more)
    decreases |more|
  {
    if more == [] {
      assert acts + more == acts;
    } else {
      assert (acts + more)[..|acts + more| - 1] == acts + more[..|more| - 1];
      AliveMore(acts, more[..|more| - 1]);
    }
  }

  lemma AliveFew(a: Act, b: Act, c: Act)
    ensures Alive([]) == 0 && Alive([a]) == Births(a) && Alive([a, b]) == Births(a) + Births(b)
    ensures Alive([a, b, c]) == Births(a) + Births(b) + Births(c)
  {
    assert [a][..0] == [] && [a, b][..1] == [a] && [a, b, c][..2] == [a, b];
  }

  /** A connector lives on unless it is shut down, exits, or is killed after an alarm; without one, only the
      end of a pause makes one. */
  lemma DueAlive(p: Policy, before: seq<Act>, h: Happening)
    requires 0 <= Alive(before) <= 1
    ensures var after := before + Due(p, before, h);
            Alive(after) ==
            if Alive(before) == 0 then if h == Elapses(true) then 1 else 0
            else if h == Shutdown(true) || h == Exits(true) || (Alarms(p, before, h) && h.killed) then 0
            else 1
  {
    AliveMore(before, Due(p, before, h));
    AliveFew(Spawned, Spawned, Spawned);
    AliveFew(Killed(true), Spawned, Spawned);
    AliveFew(Exited, Pause(p, before + [Exited]), Spawned);
    if h.Probe? {
      var seen := Saw(h.health, h.at);
      AliveFew(seen, Killed(false), Pause(p, before + [seen, Killed(false)]));
    }
  }

  lemma {:induction false} TraceIsAlive(
    p: Policy, happenings: seq<Happening>, trace: seq<seq<Act>>, result: Option<Result<(), ()>>, n: nat)
    requires IsTrace(p, true, happenings, trace, result) && n < |trace|
    ensures 0 <= Alive(trace[n]) <= 1
  {
    if n > 0 {
      TraceIsAlive(p, happenings, trace, result, n - 1);
      DueAlive(p, trace[n - 1], happenings[n - 1]);
    } else {
      AliveFew(Spawned, Spawned, Spawned);
    }
  }

  /** Nothing but the end of the pause or a shutdown among happenings i .. j. */
  ghost predicate Pausing(happenings: seq<Happening>, i: int, j: int)
    requires 0 <= i <= j <= |happenings|
  {
    forall k :: i <= k < j ==> !happenings[k].Elapses? && !happenings[k].Shutdown?
  }

  /** A connector that went is started again: whatever else comes meanwhile, the end of the pause finds one
      pause and then a new connector, and nothing else. */
  lemma {:induction false} StartsAgain(
    p: Policy, happenings: seq<Happening>, trace: seq<seq<Act>>, result: Option<Result<(), ()>>, i: nat, j: nat)
    requires IsTrace(p, true, happenings, trace, result) && i < j < |trace| - 1 && Pausing(happenings, i + 1, j)
    requires Alive(trace[i]) == 1 && happenings[j] == Elapses(true)
    requires happenings[i] == Exits(true) || (Alarms(p, trace[i], happenings[i]) && happenings[i].killed)
    ensures trace[j] == trace[i + 1] && trace[j + 1] == trace[i + 1] + [Spawned] && Alive(trace[j + 1]) == 1
    ensures |trace[i + 1]| >= 2 && trace[i + 1][|trace[i + 1]| - 1].Slept?
    ensures trace[i + 1][|trace[i + 1]| - 1] == Pause(p, trace[i + 1][..|trace[i + 1]| - 1])
  {
    TraceStep(p, happenings, trace, result, i);
    DueAlive(p, trace[i], happenings[i]);
    StaysPaused(p, happenings, trace, result, i + 1, j);
    TraceStep(p, happenings, trace, result, j);
    DueAlive(p, trace[j], happenings[j]);
    PauseIsLast(p, trace[i], happenings[i]);
  }

  lemma PauseIsLast(p: Policy, before: seq<Act>, h: Happening)
    requires Alive(before) == 1 && (h == Exits(true) || (Alarms(p, before, h) && h.killed))
    ensures var after := before + Due(p, before, h);
            |after| >= 2 && after[|after| - 1] == Pause(p, after[..|after| - 1])
  {
    var after := before + Due(p, before, h);
    if h == Exits(true) {
      assert after[..|after| - 1] == before + [Exited];
    } else {
      assert after[..|after| - 1] == before + [Saw(h.health, h.at), Killed(false)];
    }
  }

  lemma TraceStep(
    p: Policy, happenings: seq<Happening>, trace: seq<seq<Act>>, result: Option<Result<(), ()>>, i: nat)
    requires IsTrace(p, true, happenings, trace, result) && i < |trace| - 1
    ensures i < |happenings| && trace[i + 1] == trace[i] + Due(p, trace[i], happenings[i])
  {
  }

  lemma NothingDue(p: Policy, before: seq<Act>, h: Happening)
    requires Alive(before) == 0 && h != Elapses(true)
    ensures before + Due(p, before, h) == before
  {
    assert before + [] == before;
  }

  lemma {:induction false} StaysPaused(
    p: Policy, happenings: seq<Happening>, trace: seq<seq<Act>>, result: Option<Result<(), ()>>, i: nat, j: nat)
    requires IsTrace(p, true, happenings, trace, result) && i <= j < |trace| && Pausing(happenings, i, j)
    requires Alive(trace[i]) == 0
    ensures trace[j] == trace[i]
    decreases j
  {
    if i < j {
      StaysPaused(p, happenings, trace, result, i, j - 1);
      TraceStep(p, happenings, trace, result, j - 1);
      NothingDue(p, trace[j - 1], happenings[j - 1]);
    }
  }

  ghost predicate Tracks(r: Recovery, p: Policy, acts: seq<Act>)
    reads r
  {
    AllJustified(p, acts) && r.Valid() && r.policy == p && r.history == History(acts)
  }

  /** A check of a connector that runs. `ended`: it alarmed and the child was killed. */
  method Check(r: Recovery, p: Policy, acts: seq<Act>, health: Health, at: nat, killed: bool)
    returns (next: seq<Act>, ended: bool, stopped: Option<Result<(), ()>>)
    requires Tracks(r, p, acts) && Alive(acts) == 1
    modifies r
    ensures Tracks(r, p, next) && (stopped == None ==> Alive(next) == if ended then 0 else 1)
    ensures var alarms := Alarms(p, acts, Probe(health, at, killed));
            && ended == (alarms && killed) && stopped == (if alarms && !killed then Some(Err(())) else None)
            && next == acts + if ended then [Saw(health, at), Killed(false)] else [Saw(health, at)]
  {
    var restart := r.Observe(health, at, p);
    One(p, acts, Saw(health, at));
    next, ended, stopped := acts + [Saw(health, at)], false, None;
    if restart {
      if !killed {
        return next, false, Some(Err(()));
      }
      One(p, next, Killed(false));
      assert next + [Killed(false)] == acts + [Saw(health, at), Killed(false)];
      return next + [Killed(false)], true, None;
    }
  }

  /** Meets one happening while a child runs. `ended`: the child is gone; `stopped`: so is the loop. */
  method Watch(r: Recovery, p: Policy, acts: seq<Act>, h: Happening)
    returns (next: seq<Act>, ended: bool, stopped: Option<Result<(), ()>>)
    requires Tracks(r, p, acts) && Alive(acts) == 1
    modifies r
    ensures Tracks(r, p, next) && (stopped == None ==> Alive(next) == if ended then 0 else 1)
    ensures stopped == EndOf(p, acts, h) && (stopped == Some(Ok(())) ==> Alive(next) == 0)
    ensures acts + Due(p, acts, h) == if stopped == None && ended then next + [Pause(p, next)] else next
  {
    match h {
      case Shutdown(killed) =>
        if !killed {
          return acts, false, Some(Err(()));
        }
        One(p, acts, Killed(true));
        return acts + [Killed(true)], true, Some(Ok(()));
      case Exits(waited) =>
        if !waited {
          return acts, false, Some(Err(()));
        }
        One(p, acts, Exited);
        return acts + [Exited], true, None;
      case Probe(health, at, killed) =>
        next, ended, stopped := Check(r, p, acts, health, at, killed);
      case Elapses(_) =>
        return acts, false, None;
    }
  }

  method Spawn(p: Policy, acts: seq<Act>, spawned: bool) returns (next: seq<Act>, stopped: Option<Result<(), ()>>)
    requires AllJustified(p, acts) && Alive(acts) == 0
    ensures AllJustified(p, next) && History(next) == History(acts)
    ensures next == acts + if spawned then [Spawned] else []
    ensures if spawned then stopped == None && Alive(next) == 1 else stopped == Some(Err(()))
  {
    if !spawned {
      return acts, Some(Err(()));
    }
    One(p, acts, Spawned);
    return acts + [Spawned], None;
  }

  /** Meets one happening, with a child or during a pause. */
  method Meet(r: Recovery, p: Policy, acts: seq<Act>, running: bool, h: Happening)
    returns (next: seq<Act>, runs: bool, stopped: Option<Result<(), ()>>)
    requires Tracks(r, p, acts) && Alive(acts) == if running then 1 else 0
    modifies r
    ensures Tracks(r, p, next) && (stopped == None ==> Alive(next) == if runs then 1 else 0)
    ensures next == acts + Due(p, acts, h)
    ensures stopped == EndOf(p, acts, h) && (stopped == Some(Ok(())) ==> Alive(next) == 0)
  {
    next, runs, stopped := acts, running, None;
    if running {
      var ended;
      next, ended, stopped := Watch(r, p, acts, h);
      if ended && stopped == None {
        var delay := r.RestartDelay(p);
        One(p, next, Slept(delay));
        next, runs := next + [Slept(delay)], false;
      }
    } else if h.Shutdown? {
      stopped := Some(Ok(()));
    } else if h.Elapses? {
      next, stopped := Spawn(p, acts, h.spawned);
      runs := true;
    }
  }

  /** Serves the happenings that come. Ok: shut down, with no child left; Err: it cannot go on; None: it has
      met all of them and waits for more. What it did comes of a trace in which everything due was done. */
  method Supervise(p: Policy, spawned: bool, happenings: seq<Happening>)
    returns (acts: seq<Act>, result: Option<Result<(), ()>>)
    requires Representable(p)
    ensures AllJustified(p, acts)
    ensures result == Some(Ok(())) ==> Alive(acts) == 0
    ensures exists trace :: IsTrace(p, spawned, happenings, trace, result) && trace[|trace| - 1] == acts
  {
    var recovery := new Recovery(p);
    acts, result := Spawn(p, [], spawned);
    ghost var trace := [acts];
    NoneMet(p, spawned, happenings);
    var running := true;
    var i := 0;
    while i < |happenings| && result == None
      invariant i <= |happenings| && Tracks(recovery, p, acts)
      invariant result == None ==> Alive(acts) == if running then 1 else 0
      invariant result == Some(Ok(())) ==> Alive(acts) == 0
      invariant |trace| == i + 1 && trace[i] == acts
      invariant IsTrace(p, spawned, happenings[..i], trace, result)
    {
      ghost var was := trace;
      acts, running, result := Meet(recovery, p, acts, running, happenings[i]);
      trace := trace + [acts];
      OneMoreMet(p, spawned, happenings, i, was, acts);
      i := i + 1;
    }
    Longer(p, spawned, happenings, i, trace, result);
  }

  lemma Longer(
    p: Policy, spawned: bool, happenings: seq<Happening>, i: nat, trace: seq<seq<Act>>, result: Option<Result<(), ()>>)
    requires i <= |happenings| && IsTrace(p, spawned, happenings[..i], trace, result)
    requires result == None ==> i == |happenings|
    ensures IsTrace(p, spawned, happenings, trace, result)
  {
  }

  lemma NoneMet(p: Policy, spawned: bool, happenings: seq<Happening>)
    ensures IsTrace(p, spawned, happenings[..0], [[] + if spawned then [Spawned] else []],
                    if spawned then None else Some(Err(())))
  {
  }

  lemma OneMoreMet(
    p: Policy, spawned: bool, happenings: seq<Happening>, i: nat, trace: seq<seq<Act>>, acts: seq<Act>)
    requires i < |happenings| && |trace| == i + 1 && IsTrace(p, spawned, happenings[..i], trace, None)
    requires acts == trace[i] + Due(p, trace[i], happenings[i])
    ensures IsTrace(p, spawned, happenings[..i + 1], trace + [acts], EndOf(p, trace[i], happenings[i]))
  {
    assert happenings[..i + 1] == happenings[..i] + [happenings[i]];
  }
}
