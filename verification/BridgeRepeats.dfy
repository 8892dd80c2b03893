/**
  Commands over any number of connections at once (crates/hub/src/bridge.rs): looking a command up,
  carrying it out and saving its result are separate steps, and a connection may go away in between.
*/
module BridgeRepeats {
  import opened Wrappers
  import opened BridgeCommands

  /** What a connection does with the message it took last. */
  datatype Stage = Idle | Running(command: string) | Purging(at: int)

  datatype Link = Link(bridge: string, stage: Stage)

  /** The hub's table, and the connections of all bridges. */
  datatype Hub = Hub(rows: map<Key, Row>, links: map<nat, Link>)

  /** `looked`: the lookup worked. `saved`: the result went into the table. `purged`: the removal of old
      results worked. */
  datatype Step =
    | Connect(link: nat, bridge: string)
    | Drop(link: nat)
    | Look(link: nat, command: string, looked: bool)
    | Finish(link: nat, verdict: string, at: int, saved: bool)
    | Purge(link: nat, purged: bool)

  const NEW_HUB := Hub(map[], map[])

  predicate Enabled(h: Hub, s: Step) {
    if s.Connect? then s.link !in h.links
    else
      && s.link in h.links
      && match s
         case Drop(_) => true
         case Look(c, _, _) => h.links[c].stage == Idle
         case Finish(c, _, _, _) => h.links[c].stage.Running?
         case Purge(c, _) => h.links[c].stage.Purging?
  }

  function KeyOf(h: Hub, c: nat, command: string): Key
    requires c in h.links
  {
    Key(h.links[c].bridge, command)
  }

  function Moved(h: Hub, c: nat, stage: Stage): Hub
    requires c in h.links
  {
    h.(links := h.links[c := h.links[c].(stage := stage)])
  }

  function Next(h: Hub, s: Step): Hub
    requires Enabled(h, s)
  {
    match s
    case Connect(c, bridge) => h.(links := h.links[c := Link(bridge, Idle)])
    case Drop(c) => h.(links := h.links - {c})
    case Look(c, command, looked) =>
      if looked && KeyOf(h, c, command) in h.rows then h else Moved(h, c, Running(command))
    case Finish(c, verdict, at, saved) =>
      if saved then
        Moved(h, c, Purging(at)).(rows := h.rows[KeyOf(h, c, h.links[c].stage.command) := Row(verdict, at)])
      else Moved(h, c, Idle)
    case Purge(c, purged) => Moved(h, c, Idle).(rows := if purged then Recent(h.rows, h.links[c].stage.at) else h.rows)
  }

  /** Undisturbed, the steps of one message do what `Results.Handle` does. */
  lemma HandledIsItsSteps(h: Hub, c: nat, command: string, looked: bool, verdict: string, at: int, saving: Saving)
    requires c in h.links && h.links[c].stage == Idle
    ensures var key, look := KeyOf(h, c, command), Look(c, command, looked);
            && Enabled(h, look)
            && var found := Next(h, look);
               if looked && key in h.rows then found == h
               else
                 var finish := Finish(c, verdict, at, saving != Unsaved);
                 && Enabled(found, finish)
                 && var finished := Next(found, finish);
                    var rows := SavedTo(h.rows, key, verdict, at, saving);
                    if saving == Unsaved then finished == h.(rows := rows)
                    else
                      && Enabled(finished, Purge(c, saving == Purged))
                      && Next(finished, Purge(c, saving == Purged)) == h.(rows := rows)
  {
    var found := Next(h, Look(c, command, looked));
    if !(looked && KeyOf(h, c, command) in h.rows) {
      var finished := Next(found, Finish(c, verdict, at, saving != Unsaved));
      if saving == Unsaved {
        assert finished.links == h.links;
      } else {
        assert Next(finished, Purge(c, saving == Purged)).links == h.links;
      }
    }
  }

  // ---------- Runs ----------

  ghost predicate IsRun(hubs: seq<Hub>, steps: seq<Step>) {
    && |hubs| == |steps| + 1
    && hubs[0] == NEW_HUB
    && forall i :: 0 <= i < |steps| ==> StepAt(hubs, steps, i)
  }

  ghost predicate StepAt(hubs: seq<Hub>, steps: seq<Step>, i: int)
    requires |hubs| == |steps| + 1 && 0 <= i < |steps|
  {
    Enabled(hubs[i], steps[i]) && hubs[i + 1] == Next(hubs[i], steps[i])
  }

  /** Step `i` looks `key` up. */
  ghost predicate Looks(hubs: seq<Hub>, steps: seq<Step>, i: int, key: Key) {
    && 0 <= i < |steps| && i < |hubs| && steps[i].Look? && steps[i].link in hubs[i].links
    && KeyOf(hubs[i], steps[i].link, steps[i].command) == key
  }

  /** And starts to carry it out, rather than answer from the table. */
  ghost predicate Begins(hubs: seq<Hub>, steps: seq<Step>, i: int, key: Key) {
    Looks(hubs, steps, i, key) && !(steps[i].looked && key in hubs[i].rows)
  }

  /** Step `i` saves a result of `key`. */
  ghost predicate Saves(hubs: seq<Hub>, steps: seq<Step>, i: int, key: Key) {
    && 0 <= i < |steps| && i < |hubs| && steps[i].Finish? && steps[i].saved && steps[i].link in hubs[i].links
    && hubs[i].links[steps[i].link] == Link(key.bridge, Running(key.command))
  }

  /** Step `i` removes what was saved at `at`. */
  ghost predicate PurgesOf(hubs: seq<Hub>, steps: seq<Step>, i: int, at: int) {
    && 0 <= i < |steps| && i < |hubs| && steps[i].Purge? && steps[i].purged && steps[i].link in hubs[i].links
    && hubs[i].links[steps[i].link].stage.Purging? && at < hubs[i].links[steps[i].link].stage.at - WEEK
  }

  /** Step `i` saved the result of `key` that is there before step `n`. */
  ghost predicate Retained(hubs: seq<Hub>, steps: seq<Step>, n: int, key: Key, i: int) {
    && i < n && Saves(hubs, steps, i, key)
    && forall j :: i < j < n ==> !Saves(hubs, steps, j, key) && !PurgesOf(hubs, steps, j, steps[i].at)
  }

  /** What one step does to the row of one key. */
  lemma RowAfter(hubs: seq<Hub>, steps: seq<Step>, i: nat, key: Key)
    requires IsRun(hubs, steps) && i < |steps|
    ensures Saves(hubs, steps, i, key) ==>
              key in hubs[i + 1].rows && hubs[i + 1].rows[key] == Row(steps[i].verdict, steps[i].at)
    ensures !Saves(hubs, steps, i, key) ==>
              && (key in hubs[i + 1].rows <==> key in hubs[i].rows && !PurgesOf(hubs, steps, i, hubs[i].rows[key].at))
              && (key in hubs[i + 1].rows ==> hubs[i + 1].rows[key] == hubs[i].rows[key])
  {
    assert StepAt(hubs, steps, i);
  }

  /** Over every run the table holds exactly the results saved and neither replaced nor purged since. */
  lemma {:induction false} TableIsWhatIsRetained(hubs: seq<Hub>, steps: seq<Step>, n: nat, key: Key)
    requires IsRun(hubs, steps) && n <= |steps|
    ensures key in hubs[n].rows <==> exists i :: Retained(hubs, steps, n, key, i)
    ensures forall i :: Retained(hubs, steps, n, key, i) ==>
              key in hubs[n].rows && hubs[n].rows[key] == Row(steps[i].verdict, steps[i].at)
    decreases n
  {
    if n > 0 {
      TableIsWhatIsRetained(hubs, steps, n - 1, key);
      RowAfter(hubs, steps, n - 1, key);
      forall i | i < n - 1 ensures RetainedOneMore(hubs, steps, n, key, i) {}
      assert Saves(hubs, steps, n - 1, key) <==> Retained(hubs, steps, n, key, n - 1);
      if key in hubs[n].rows && !Saves(hubs, steps, n - 1, key) {
        var i :| Retained(hubs, steps, n - 1, key, i);
        assert RetainedOneMore(hubs, steps, n, key, i);
      }
      forall i | Retained(hubs, steps, n, key, i)
        ensures key in hubs[n].rows && hubs[n].rows[key] == Row(steps[i].verdict, steps[i].at)
      {
        assert i < n - 1 ==> RetainedOneMore(hubs, steps, n, key, i);
      }
    }
  }

  ghost predicate RetainedOneMore(hubs: seq<Hub>, steps: seq<Step>, n: int, key: Key, i: int) {
    Retained(hubs, steps, n, key, i) <==>
    && Retained(hubs, steps, n - 1, key, i)
    && !Saves(hubs, steps, n - 1, key) && !PurgesOf(hubs, steps, n - 1, steps[i].at)
  }

  /** Any lookup of a command finds it exactly when it works and a result saved before is still there, and
      gets that result. */
  lemma FoundIff(hubs: seq<Hub>, steps: seq<Step>, j: nat, key: Key)
    requires IsRun(hubs, steps) && Looks(hubs, steps, j, key)
    ensures !Begins(hubs, steps, j, key) <==>
              steps[j].looked && exists i :: Retained(hubs, steps, j, key, i)
    ensures !Begins(hubs, steps, j, key) ==>
              && key in hubs[j].rows
              && forall i :: Retained(hubs, steps, j, key, i) ==> hubs[j].rows[key].result == steps[i].verdict
  {
    TableIsWhatIsRetained(hubs, steps, j, key);
  }

  // ---------- Repeats ----------

  ghost predicate Runs(h: Hub, c: nat, key: Key) {
    c in h.links && h.links[c] == Link(key.bridge, Running(key.command))
  }

  /** Nothing runs a command but who began it. */
  lemma RunsAfter(hubs: seq<Hub>, steps: seq<Step>, i: nat, c: nat, key: Key)
    requires IsRun(hubs, steps) && i < |steps| && Runs(hubs[i + 1], c, key)
    ensures Runs(hubs[i], c, key) || (Begins(hubs, steps, i, key) && steps[i].link == c)
    ensures !(Saves(hubs, steps, i, key) && steps[i].link == c)
  {
    assert StepAt(hubs, steps, i);
  }

  /** A command never looked up is not in the table. */
  lemma {:induction false} NotThereUnlooked(hubs: seq<Hub>, steps: seq<Step>, n: nat, key: Key)
    requires IsRun(hubs, steps) && n <= |steps| && forall i :: 0 <= i < n ==> !Looks(hubs, steps, i, key)
    ensures key !in hubs[n].rows && forall c :: !Runs(hubs[n], c, key)
    decreases n
  {
    if n > 0 {
      NotThereUnlooked(hubs, steps, n - 1, key);
      RowAfter(hubs, steps, n - 1, key);
      assert Saves(hubs, steps, n - 1, key) ==> Runs(hubs[n - 1], steps[n - 1].link, key);
      forall c ensures !Runs(hubs[n], c, key) {
        if Runs(hubs[n], c, key) {
          RunsAfter(hubs, steps, n - 1, c, key);
        }
      }
    }
  }

  /** `first` is where `key` is looked up first, `later` where it is next. */
  ghost predicate FirstRepeat(hubs: seq<Hub>, steps: seq<Step>, first: nat, later: nat, key: Key) {
    && first < later && Looks(hubs, steps, first, key) && Looks(hubs, steps, later, key)
    && forall i :: 0 <= i < later && i != first ==> !Looks(hubs, steps, i, key)
  }

  /** In between only the first one's connection may run it, and once it has saved the result no one. */
  lemma {:induction false} OnlyFirstRuns(hubs: seq<Hub>, steps: seq<Step>, first: nat, later: nat, n: nat, key: Key)
    requires IsRun(hubs, steps) && FirstRepeat(hubs, steps, first, later, key) && first < n <= later
    ensures forall c :: Runs(hubs[n], c, key) ==>
              c == steps[first].link && forall f :: first < f < n ==> !Saves(hubs, steps, f, key)
    decreases n
  {
    if n == first + 1 {
      NotThereUnlooked(hubs, steps, first, key);
    } else {
      OnlyFirstRuns(hubs, steps, first, later, n - 1, key);
    }
    forall c | Runs(hubs[n], c, key)
      ensures c == steps[first].link && forall f :: first < f < n ==> !Saves(hubs, steps, f, key)
    {
      RunsAfter(hubs, steps, n - 1, c, key);
      if n > first + 1 && Saves(hubs, steps, n - 1, key) {
        assert Runs(hubs[n - 1], steps[n - 1].link, key);
      }
    }
  }

  /** So its result is saved at most once, by the connection that began it. */
  lemma OneSave(hubs: seq<Hub>, steps: seq<Step>, first: nat, later: nat, f: nat, key: Key)
    requires IsRun(hubs, steps) && FirstRepeat(hubs, steps, first, later, key)
    requires f < later && Saves(hubs, steps, f, key)
    ensures first < f && steps[f].link == steps[first].link
    ensures forall g :: first < g < f ==> !Saves(hubs, steps, g, key)
  {
    assert Runs(hubs[f], steps[f].link, key);
    if f <= first {
      NotThereUnlooked(hubs, steps, f, key);
    } else {
      OnlyFirstRuns(hubs, steps, first, later, f, key);
    }
  }

  /** A purge took away what `f` saved. */
  ghost predicate PurgedBetween(hubs: seq<Hub>, steps: seq<Step>, f: int, later: int) {
    0 <= f < |steps| && steps[f].Finish? && exists l :: f < l < later && PurgesOf(hubs, steps, l, steps[f].at)
  }

  lemma SavedOnceIsRetained(hubs: seq<Hub>, steps: seq<Step>, first: nat, later: nat, f: nat, key: Key)
    requires IsRun(hubs, steps) && FirstRepeat(hubs, steps, first, later, key)
    requires f < later && Saves(hubs, steps, f, key)
    ensures Retained(hubs, steps, later, key, f) <==> !PurgedBetween(hubs, steps, f, later)
  {
    OneSave(hubs, steps, first, later, f, key);
    forall j | f < j < later && Saves(hubs, steps, j, key) ensures false {
      OneSave(hubs, steps, first, later, j, key);
    }
  }

  /** Over every run, with any connections: a first command is carried out, and the next one with its id
      is carried out again exactly when its lookup failed, the first one's result was not saved by then
      (never, or only later), or a purge more than a week later removed it. Otherwise it gets the first
      one's answer. */
  lemma RepeatRunsIff(hubs: seq<Hub>, steps: seq<Step>, first: nat, later: nat, key: Key)
    requires IsRun(hubs, steps) && FirstRepeat(hubs, steps, first, later, key)
    ensures Begins(hubs, steps, first, key)
    ensures Begins(hubs, steps, later, key) <==>
              || !steps[later].looked
              || (forall f :: first < f < later ==> !Saves(hubs, steps, f, key))
              || (exists f :: first < f < later && Saves(hubs, steps, f, key) && PurgedBetween(hubs, steps, f, later))
    ensures !Begins(hubs, steps, later, key) ==>
              && key in hubs[later].rows
              && exists f :: first < f < later && Saves(hubs, steps, f, key) && steps[f].link == steps[first].link
                             && hubs[later].rows[key].result == steps[f].verdict
  {
    NotThereUnlooked(hubs, steps, first, key);
    TableIsWhatIsRetained(hubs, steps, later, key);
    forall f: nat | f < later && Saves(hubs, steps, f, key)
      ensures first < f && steps[f].link == steps[first].link
      ensures Retained(hubs, steps, later, key, f) <==> !PurgedBetween(hubs, steps, f, later)
    {
      OneSave(hubs, steps, first, later, f, key);
      SavedOnceIsRetained(hubs, steps, first, later, f, key);
    }
    forall f, g: nat | f < later && g < later && Saves(hubs, steps, f, key) && Saves(hubs, steps, g, key)
      ensures f == g
    {
      OneSave(hubs, steps, first, later, f, key);
      OneSave(hubs, steps, first, later, g, key);
    }
  }

  // ---------- Once ----------

  /** The result saved at `f` stays while no purge takes it and nobody else was at the command. */
  lemma {:induction false} ResultStays(hubs: seq<Hub>, steps: seq<Step>, f: nat, n: nat, key: Key)
    requires IsRun(hubs, steps) && f < n <= |steps| && Saves(hubs, steps, f, key)
    requires forall c :: Runs(hubs[f], c, key) ==> c == steps[f].link
    requires forall i :: f < i < n && Looks(hubs, steps, i, key) ==> steps[i].looked
    requires !PurgedBetween(hubs, steps, f, n)
    ensures key in hubs[n].rows && hubs[n].rows[key] == Row(steps[f].verdict, steps[f].at)
    ensures forall c :: !Runs(hubs[n], c, key)
    decreases n
  {
    if n > f + 1 {
      ResultStays(hubs, steps, f, n - 1, key);
      assert Saves(hubs, steps, n - 1, key) ==> Runs(hubs[n - 1], steps[n - 1].link, key);
    }
    RowAfter(hubs, steps, n - 1, key);
    forall c ensures !Runs(hubs[n], c, key) {
      if Runs(hubs[n], c, key) {
        RunsAfter(hubs, steps, n - 1, c, key);
      }
    }
  }

  /** Once a result is saved, and nobody else was carrying the command out just then: no later command with
      that id whose lookup works is carried out again, and each gets that result, until a purge more than
      a week later. */
  lemma CarriedOutOnce(hubs: seq<Hub>, steps: seq<Step>, f: nat, later: nat, key: Key)
    requires IsRun(hubs, steps) && f < later && Saves(hubs, steps, f, key) && Looks(hubs, steps, later, key)
    requires forall c :: Runs(hubs[f], c, key) ==> c == steps[f].link
    requires forall i :: f < i <= later && Looks(hubs, steps, i, key) ==> steps[i].looked
    requires !PurgedBetween(hubs, steps, f, later)
    ensures !Begins(hubs, steps, later, key)
    ensures key in hubs[later].rows && hubs[later].rows[key].result == steps[f].verdict
  {
    ResultStays(hubs, steps, f, later, key);
  }

  // ---------- One connection at a time ----------

  /** The bridge has at most one connection. */
  ghost predicate Alone(h: Hub, bridge: string) {
    forall c, d :: c in h.links && d in h.links && h.links[c].bridge == bridge == h.links[d].bridge ==> c == d
  }

  lemma BeganRuns(hubs: seq<Hub>, steps: seq<Step>, first: nat, key: Key)
    requires IsRun(hubs, steps) && Begins(hubs, steps, first, key)
    ensures Runs(hubs[first + 1], steps[first].link, key)
  {
    assert StepAt(hubs, steps, first);
  }

  /** Who runs a command runs it on until it finishes or its connection goes. */
  lemma {:induction false} FindEnd(hubs: seq<Hub>, steps: seq<Step>, first: nat, n: nat, key: Key) returns (e: nat)
    requires IsRun(hubs, steps) && first < n <= |steps| && Begins(hubs, steps, first, key)
    requires !Runs(hubs[n], steps[first].link, key)
    ensures first < e < n && Runs(hubs[e], steps[first].link, key) && !Runs(hubs[e + 1], steps[first].link, key)
    decreases n
  {
    BeganRuns(hubs, steps, first, key);
    if Runs(hubs[n - 1], steps[first].link, key) && n > first + 1 {
      e := n - 1;
    } else {
      e := FindEnd(hubs, steps, first, n - 1, key);
    }
  }

  /** With one connection at a time the first command has finished, or its connection went, before the
      second is looked up: only that end's saving, the second lookup and a purge decide. */
  lemma AloneRepeatRunsIff(hubs: seq<Hub>, steps: seq<Step>, first: nat, later: nat, key: Key) returns (e: nat)
    requires IsRun(hubs, steps) && FirstRepeat(hubs, steps, first, later, key)
    requires forall t :: first <= t <= later ==> Alone(hubs[t], key.bridge)
    ensures first < e < later && steps[e].link == steps[first].link && (steps[e].Finish? || steps[e].Drop?)
    ensures Begins(hubs, steps, later, key) <==>
              || !steps[later].looked
              || steps[e].Drop? || !steps[e].saved
              || PurgedBetween(hubs, steps, e, later)
  {
    RepeatRunsIff(hubs, steps, first, later, key);
    var c := steps[first].link;
    assert Alone(hubs[later], key.bridge) && StepAt(hubs, steps, later);
    e := FindEnd(hubs, steps, first, later, key);
    assert StepAt(hubs, steps, e);
    OnlyFirstRuns(hubs, steps, first, later, e, key);
    forall f | first < f < later && Saves(hubs, steps, f, key) ensures f == e {
      OneSave(hubs, steps, first, later, f, key);
      if f > e {
        NobodyRunsAfter(hubs, steps, first, later, e + 1, f, key);
      }
    }
    assert Saves(hubs, steps, e, key) <==> steps[e].Finish? && steps[e].saved;
  }

  lemma {:induction false} NobodyRunsAfter(
    hubs: seq<Hub>, steps: seq<Step>, first: nat, later: nat, m: nat, n: nat, key: Key)
    requires IsRun(hubs, steps) && FirstRepeat(hubs, steps, first, later, key) && first < m <= n <= later
    requires !Runs(hubs[m], steps[first].link, key)
    ensures !Runs(hubs[n], steps[first].link, key)
    decreases n
  {
    if m < n {
      NobodyRunsAfter(hubs, steps, first, later, m, n - 1, key);
      if Runs(hubs[n], steps[first].link, key) {
        RunsAfter(hubs, steps, n - 1, steps[first].link, key);
      }
    }
  }

  // ---------- Twice ----------

  lemma OneMoreStep(hubs: seq<Hub>, steps: seq<Step>, s: Step) returns (hubs': seq<Hub>, steps': seq<Step>)
    requires IsRun(hubs, steps) && Enabled(hubs[|steps|], s)
    ensures IsRun(hubs', steps') && steps' == steps + [s] && hubs' == hubs + [Next(hubs[|steps|], s)]
  {
    hubs', steps' := hubs + [Next(hubs[|steps|], s)], steps + [s];
    forall i | 0 <= i < |steps'| ensures StepAt(hubs', steps', i) {
      if i < |steps| {
        assert StepAt(hubs, steps, i);
      }
    }
  }

  /** Every lookup and every saving works. */
  ghost predicate AllWorks(steps: seq<Step>) {
    forall s <- steps :: (s.Look? ==> s.looked) && (s.Finish? ==> s.saved) && (s.Purge? ==> s.purged)
  }

  /** One command, looked up, carried out and saved on one connection. */
  lemma SavedHappens(key: Key, verdict: string) returns (hubs: seq<Hub>, steps: seq<Step>)
    ensures IsRun(hubs, steps) && |steps| == 4 && AllWorks(steps)
    ensures Begins(hubs, steps, 1, key) && Saves(hubs, steps, 2, key)
    ensures hubs[4] == Hub(map[key := Row(verdict, 0)], map[0 := Link(key.bridge, Idle)])
  {
    hubs, steps := [NEW_HUB], [];
    hubs, steps := OneMoreStep(hubs, steps, Connect(0, key.bridge));
    hubs, steps := OneMoreStep(hubs, steps, Look(0, key.command, true));
    hubs, steps := OneMoreStep(hubs, steps, Finish(0, verdict, 0, true));
    hubs, steps := OneMoreStep(hubs, steps, Purge(0, true));
  }

  /** Although everything works and there is one connection, another command's purge more than a week
      later has a command carried out again. */
  lemma CarriedOutTwice(key: Key, other: string, verdict: string) returns (hubs: seq<Hub>, steps: seq<Step>)
    requires other != key.command
    ensures IsRun(hubs, steps) && |steps| == 8 && AllWorks(steps)
    ensures Begins(hubs, steps, 1, key) && Begins(hubs, steps, 7, key)
  {
    hubs, steps := SavedHappens(key, verdict);
    hubs, steps := OneMoreStep(hubs, steps, Look(0, other, true));
    hubs, steps := OneMoreStep(hubs, steps, Finish(0, verdict, WEEK + 1, true));
    hubs, steps := OneMoreStep(hubs, steps, Purge(0, true));
    hubs, steps := OneMoreStep(hubs, steps, Look(0, key.command, true));
  }

  /** One failing lookup is enough, too. */
  lemma CarriedOutUnlooked(key: Key, verdict: string) returns (hubs: seq<Hub>, steps: seq<Step>)
    ensures IsRun(hubs, steps) && |steps| == 5 && Saves(hubs, steps, 2, key)
    ensures Begins(hubs, steps, 1, key) && Begins(hubs, steps, 4, key)
  {
    hubs, steps := SavedHappens(key, verdict);
    hubs, steps := OneMoreStep(hubs, steps, Look(0, key.command, false));
  }

  lemma BothBegin(key: Key) returns (hubs: seq<Hub>, steps: seq<Step>)
    ensures IsRun(hubs, steps) && |steps| == 4 && AllWorks(steps)
    ensures Begins(hubs, steps, 2, key) && Begins(hubs, steps, 3, key)
    ensures var run := Link(key.bridge, Running(key.command)); hubs[4] == Hub(map[], map[0 := run, 1 := run])
  {
    hubs, steps := [NEW_HUB], [];
    hubs, steps := OneMoreStep(hubs, steps, Connect(0, key.bridge));
    hubs, steps := OneMoreStep(hubs, steps, Connect(1, key.bridge));
    hubs, steps := OneMoreStep(hubs, steps, Look(0, key.command, true));
    hubs, steps := OneMoreStep(hubs, steps, Look(1, key.command, true));
  }

  /** And with two connections a command is carried out on both, although everything works. */
  lemma CarriedOutAtOnce(key: Key, one: string, two: string) returns (hubs: seq<Hub>, steps: seq<Step>)
    ensures IsRun(hubs, steps) && |steps| == 6 && AllWorks(steps)
    ensures Begins(hubs, steps, 2, key) && Begins(hubs, steps, 3, key)
    ensures Saves(hubs, steps, 4, key) && Saves(hubs, steps, 5, key)
  {
    hubs, steps := BothBegin(key);
    hubs, steps := OneMoreStep(hubs, steps, Finish(0, one, 0, true));
    hubs, steps := OneMoreStep(hubs, steps, Finish(1, two, 0, true));
  }
}
