/**
  A run's event log and the bridge together: updates queue the run's events one row at a time while any
  number of connections send what is queued, and the server keeps a start of the log.
*/
module BridgeLog {
  import opened Wrappers
  import W = Webhooks
  import L = WebhookLog
  import O = BridgeOutbox
  import B = BridgeEvents

  /** An update under way: the state it will save, how many of its events it has queued, and the rest. */
  datatype Telling = Telling(next: W.RunState, count: nat, left: seq<L.Entry>)

  datatype Hub = Hub(world: B.World, saved: Option<W.RunState>, telling: Option<Telling>)

  /** What an event says about the run; the outbox also holds the events of other runs. */
  type Reading = string -> Option<L.Entry>

  datatype Step =
    | AtBridge(step: B.Step)
    | Begin(run: W.RunInfo)
    | Insert(event: O.Event)
    | Finish
    | Fail
    | Forget

  const NEW_HUB := Hub(B.NOTHING_YET, None, None)

  ghost predicate Enabled(h: Hub, s: Step, says: Reading) {
    match s
    case AtBridge(step) => B.Enabled(h.world, step) && (step.Queue? ==> says(step.event.body) == None)
    case Begin(_) => h.telling == None
    case Insert(e) =>
      && h.telling.Some? && h.telling.value.left != [] && says(e.body) == Some(h.telling.value.left[0])
      && B.Enabled(h.world, B.Queue(e))
    case Finish => h.telling.Some? && h.telling.value.left == []
    case Fail => h.telling.Some?
    case Forget => h.saved.Some? && h.saved.value.info.ended
  }

  ghost function Next(h: Hub, s: Step, says: Reading): Hub
    requires Enabled(h, s, says)
  {
    match s
    case AtBridge(step) => h.(world := B.Next(h.world, step))
    case Begin(run) => h.(telling := Some(Telling(L.NextState(h.saved, run), 0, L.EntriesOf(h.saved, run))))
    case Insert(e) =>
      var t := h.telling.value;
      h.(world := B.Next(h.world, B.Queue(e)), telling := Some(t.(count := t.count + 1, left := t.left[1..])))
    case Finish => h.(saved := Some(h.telling.value.next), telling := None)
    case Fail => h.(telling := None)
    case Forget => h.(saved := None)
  }

  /** What some events say about the run, in order. */
  function Of(events: seq<O.Event>, says: Reading): seq<L.Entry>
    decreases |events|
  {
    if events == [] then []
    else
      var last := says(events[|events| - 1].body);
      Of(events[..|events| - 1], says) + if last.Some? then [last.value] else []
  }

  lemma OfOneMore(events: seq<O.Event>, e: O.Event, says: Reading)
    ensures Of(events + [e], says) == Of(events, says) + if says(e.body).Some? then [says(e.body).value] else []
  {
    assert (events + [e])[..|events|] == events;
  }

  lemma {:induction false} OfStart(part: seq<O.Event>, whole: seq<O.Event>, says: Reading)
    requires part <= whole
    ensures Of(part, says) <= Of(whole, says)
    decreases |whole|
  {
    if part != whole {
      OfStart(part, whole[..|whole| - 1], says);
    }
  }

  /** Everything queued about the run so far. */
  function Queued(h: Hub, says: Reading): seq<L.Entry> { Of(h.world.outbox.rows, says) }

  lemma StepQueues(h: Hub, s: Step, says: Reading)
    requires Enabled(h, s, says)
    ensures Queued(Next(h, s, says), says) ==
            if s.Insert? then Queued(h, says) + [h.telling.value.left[0]] else Queued(h, says)
  {
    match s
    case AtBridge(step) =>
      if step.Queue? {
        OfOneMore(h.world.outbox.rows, step.event, says);
      }
    case Insert(e) => OfOneMore(h.world.outbox.rows, e, says);
    case _ =>
  }

  ghost predicate StepAt(hubs: seq<Hub>, steps: seq<Step>, says: Reading, i: int)
    requires |hubs| == |steps| + 1 && 0 <= i < |steps|
  {
    Enabled(hubs[i], steps[i], says) && hubs[i + 1] == Next(hubs[i], steps[i], says)
  }

  ghost predicate IsRun(hubs: seq<Hub>, steps: seq<Step>, says: Reading) {
    && |hubs| == |steps| + 1
    && hubs[0] == NEW_HUB
    && forall i :: 0 <= i < |steps| ==> StepAt(hubs, steps, says, i)
  }

  lemma StepKeepsSafe(h: Hub, s: Step, says: Reading)
    requires B.Safe(h.world) && Enabled(h, s, says)
    ensures B.Safe(Next(h, s, says).world)
  {
    match s
    case AtBridge(step) => B.StepKeepsSafe(h.world, step);
    case Insert(e) => B.StepKeepsSafe(h.world, B.Queue(e));
    case _ =>
  }

  lemma {:induction false} RunIsSafe(hubs: seq<Hub>, steps: seq<Step>, says: Reading, n: nat)
    requires IsRun(hubs, steps, says) && n <= |steps|
    ensures B.Safe(hubs[n].world)
  {
    if n > 0 {
      RunIsSafe(hubs, steps, says, n - 1);
      assert StepAt(hubs, steps, says, n - 1);
      StepKeepsSafe(hubs[n - 1], steps[n - 1], says);
    }
  }

  /** Whatever fails: of what was queued about a run the server has a start, in order, without a gap. */
  lemma ServerHasAStart(hubs: seq<Hub>, steps: seq<Step>, says: Reading, n: nat)
    requires IsRun(hubs, steps, says) && n <= |steps|
    ensures Of(hubs[n].world.store, says) <= Queued(hubs[n], says)
  {
    RunIsSafe(hubs, steps, says, n);
    OfStart(hubs[n].world.store, hubs[n].world.outbox.rows, says);
  }

  // ---------- Numbers ----------

  /** This step leaves the saved number behind what is queued: an update that queued something fails, or
      the state is purged, and no update under way saves its own after that. */
  ghost predicate Falls(h: Hub, s: Step, queued: nat) {
    match s
    case Fail => h.telling.Some? && (h.telling.value.count > 0 || (h.saved == None && queued > 0))
    case Forget => h.telling == None
    case _ => false
  }

  ghost predicate FallsBehind(hubs: seq<Hub>, steps: seq<Step>, says: Reading, i: int) {
    0 <= i < |steps| && i < |hubs| && Falls(hubs[i], steps[i], |Queued(hubs[i], says)|)
  }

  /** It fell behind in the first `n` steps. */
  ghost predicate Behind(hubs: seq<Hub>, steps: seq<Step>, says: Reading, n: int) {
    exists i :: i < n && FallsBehind(hubs, steps, says, i)
  }

  /** The number an update under way started from. */
  function From(t: Telling): int { t.next.last - t.count - |t.left| }

  /** `behind` says whether the numbers fell behind the `queued` events. */
  ghost predicate NumbersOk(h: Hub, queued: nat, behind: bool) {
    && (h.saved.Some? ==> 0 < h.saved.value.last)
    && match h.telling
       case None => W.LastNo(h.saved) <= queued && (W.LastNo(h.saved) < queued <==> behind)
       case Some(t) =>
         && 0 < t.next.last && 0 <= From(t)
         && (forall k :: 0 <= k < |t.left| ==> t.left[k].no == From(t) + t.count + k + 1)
         && From(t) + t.count <= queued && (From(t) + t.count < queued <==> behind)
         && (h.saved.Some? ==> h.saved.value.last == From(t))
  }

  lemma BeginKeepsNumbers(h: Hub, run: W.RunInfo, queued: nat, behind: bool, says: Reading)
    requires NumbersOk(h, queued, behind) && Enabled(h, Begin(run), says)
    ensures NumbersOk(Next(h, Begin(run), says), queued, behind)
  {
    W.ToldIs(h.saved, run);
    assert h.saved == None ==> W.Started in W.Told(h.saved, run);
  }

  lemma InsertKeepsNumbers(h: Hub, e: O.Event, queued: nat, behind: bool, says: Reading)
    requires NumbersOk(h, queued, behind) && Enabled(h, Insert(e), says)
    ensures NumbersOk(Next(h, Insert(e), says), queued + 1, behind)
    ensures h.telling.value.left[0].no == queued + 1 <==> !behind
  {
    var t, after := h.telling.value, Next(h, Insert(e), says).telling.value;
    assert From(after) == From(t);
    assert forall k :: 0 <= k < |after.left| ==> after.left[k] == t.left[k + 1];
  }

  lemma StepKeepsNumbers(h: Hub, s: Step, queued: nat, behind: bool, says: Reading)
    requires NumbersOk(h, queued, behind) && Enabled(h, s, says)
    ensures NumbersOk(Next(h, s, says), if s.Insert? then queued + 1 else queued, behind || Falls(h, s, queued))
  {
    match s
    case AtBridge(_) =>
    case Begin(run) => BeginKeepsNumbers(h, run, queued, behind, says);
    case Insert(e) => InsertKeepsNumbers(h, e, queued, behind, says);
    case _ =>
  }

  lemma {:induction false} RunKeepsNumbers(hubs: seq<Hub>, steps: seq<Step>, says: Reading, n: nat)
    requires IsRun(hubs, steps, says) && n <= |steps|
    ensures NumbersOk(hubs[n], |Queued(hubs[n], says)|, Behind(hubs, steps, says, n))
    decreases n
  {
    if n > 0 {
      RunKeepsNumbers(hubs, steps, says, n - 1);
      assert StepAt(hubs, steps, says, n - 1);
      StepQueues(hubs[n - 1], steps[n - 1], says);
      BehindOneMore(hubs, steps, says, n);
      StepKeepsNumbers(hubs[n - 1], steps[n - 1], |Queued(hubs[n - 1], says)|, Behind(hubs, steps, says, n - 1), says);
    }
  }

  lemma BehindOneMore(hubs: seq<Hub>, steps: seq<Step>, says: Reading, n: nat)
    requires n > 0
    ensures Behind(hubs, steps, says, n) <==>
            Behind(hubs, steps, says, n - 1) || FallsBehind(hubs, steps, says, n - 1)
  {
    if Behind(hubs, steps, says, n - 1) {
      var i :| i < n - 1 && FallsBehind(hubs, steps, says, i);
      assert i < n;
    }
  }

  /** Step `j` queued one of the first `p` events about the run, with the numbers behind. */
  ghost predicate Misnumbers(hubs: seq<Hub>, steps: seq<Step>, says: Reading, j: int, p: nat) {
    && 0 <= j < |steps| && j < |hubs| && steps[j].Insert?
    && |Queued(hubs[j], says)| < p && Behind(hubs, steps, says, j)
  }

  lemma {:induction false} QueuedGrows(hubs: seq<Hub>, steps: seq<Step>, says: Reading, m: nat, n: nat)
    requires IsRun(hubs, steps, says) && m <= n <= |steps|
    ensures |Queued(hubs[m], says)| <= |Queued(hubs[n], says)|
    ensures m < n && steps[m].Insert? ==> |Queued(hubs[m], says)| < |Queued(hubs[n], says)|
    decreases n
  {
    if m < n {
      QueuedGrows(hubs, steps, says, m, n - 1);
      assert StepAt(hubs, steps, says, n - 1);
      StepQueues(hubs[n - 1], steps[n - 1], says);
    }
  }

  /** The entry step `i` queues has the next number exactly unless the numbers are behind. */
  lemma InsertedNumber(hubs: seq<Hub>, steps: seq<Step>, says: Reading, i: nat) returns (entry: L.Entry)
    requires IsRun(hubs, steps, says) && i < |steps| && steps[i].Insert?
    ensures Queued(hubs[i + 1], says) == Queued(hubs[i], says) + [entry]
    ensures entry.no == |Queued(hubs[i], says)| + 1 <==> !Behind(hubs, steps, says, i)
  {
    assert StepAt(hubs, steps, says, i);
    StepQueues(hubs[i], steps[i], says);
    RunKeepsNumbers(hubs, steps, says, i);
    InsertKeepsNumbers(hubs[i], steps[i].event, |Queued(hubs[i], says)|, Behind(hubs, steps, says, i), says);
    entry := hubs[i].telling.value.left[0];
  }

  /** Some of the first `p` events was queued with the numbers behind. */
  ghost predicate Misnumbered(hubs: seq<Hub>, steps: seq<Step>, says: Reading, n: int, p: nat) {
    exists j :: j < n && Misnumbers(hubs, steps, says, j, p)
  }

  lemma MisnumberedOneMore(hubs: seq<Hub>, steps: seq<Step>, says: Reading, n: nat)
    requires IsRun(hubs, steps, says) && n < |steps| && steps[n].Insert?
    ensures var p := |Queued(hubs[n], says)|;
            Misnumbered(hubs, steps, says, n + 1, p + 1) <==>
            Misnumbered(hubs, steps, says, n, p) || Behind(hubs, steps, says, n)
  {
    var p := |Queued(hubs[n], says)|;
    forall j: nat | j < n
      ensures Misnumbers(hubs, steps, says, j, p + 1) <==> Misnumbers(hubs, steps, says, j, p)
    {
      QueuedGrows(hubs, steps, says, j, n);
    }
    assert Misnumbers(hubs, steps, says, n, p + 1) <==> Behind(hubs, steps, says, n);
    if Misnumbered(hubs, steps, says, n, p) {
      var j :| j < n && Misnumbers(hubs, steps, says, j, p);
      assert Misnumbers(hubs, steps, says, j, p + 1);
    }
  }

  lemma MisnumberedNoMore(hubs: seq<Hub>, steps: seq<Step>, says: Reading, n: nat, p: nat)
    requires n < |steps| && n < |hubs| && (p <= |Queued(hubs[n], says)| || !steps[n].Insert?)
    ensures Misnumbered(hubs, steps, says, n + 1, p) <==> Misnumbered(hubs, steps, says, n, p)
  {
    assert !Misnumbers(hubs, steps, says, n, p);
    if Misnumbered(hubs, steps, says, n, p) {
      var j :| j < n && Misnumbers(hubs, steps, says, j, p);
      assert j < n + 1;
    }
  }

  lemma OneMoreNumber(told: seq<L.Entry>, entry: L.Entry)
    ensures L.WellNumbered(told + [entry]) <==> L.WellNumbered(told) && entry.no == |told| + 1
  {
    forall i | 0 <= i < |told| ensures (told + [entry])[i] == told[i] {}
    assert (told + [entry])[|told|] == entry;
  }

  lemma AfterInsert(hubs: seq<Hub>, steps: seq<Step>, says: Reading, i: nat)
    requires IsRun(hubs, steps, says) && i < |steps| && steps[i].Insert?
    ensures |Queued(hubs[i + 1], says)| == |Queued(hubs[i], says)| + 1
    ensures L.WellNumbered(Queued(hubs[i + 1], says)) <==>
            L.WellNumbered(Queued(hubs[i], says)) && !Behind(hubs, steps, says, i)
  {
    var entry := InsertedNumber(hubs, steps, says, i);
    OneMoreNumber(Queued(hubs[i], says), entry);
  }

  /** A start of what was queued before step `i` is one of what is queued after it; only an insert makes
      a longer one. */
  lemma StartsStay(hubs: seq<Hub>, steps: seq<Step>, says: Reading, i: nat, p: nat)
    requires IsRun(hubs, steps, says) && i < |steps| && p <= |Queued(hubs[i + 1], says)|
    ensures if p <= |Queued(hubs[i], says)| then Queued(hubs[i + 1], says)[..p] == Queued(hubs[i], says)[..p]
            else steps[i].Insert? && p == |Queued(hubs[i + 1], says)|
  {
    assert StepAt(hubs, steps, says, i);
    StepQueues(hubs[i], steps[i], says);
  }

  lemma Whole(told: seq<L.Entry>)
    ensures told[..|told|] == told
  {
  }

  /** Any start of what was queued is numbered 1..n exactly when none of it was queued after the numbers
      fell behind. */
  lemma {:induction false} StartNumberedIff(hubs: seq<Hub>, steps: seq<Step>, says: Reading, n: nat, p: nat)
    requires IsRun(hubs, steps, says) && n <= |steps| && p <= |Queued(hubs[n], says)|
    ensures L.WellNumbered(Queued(hubs[n], says)[..p]) <==> !Misnumbered(hubs, steps, says, n, p)
    decreases n
  {
    if n > 0 {
      StartsStay(hubs, steps, says, n - 1, p);
      if p <= |Queued(hubs[n - 1], says)| {
        StartNumberedIff(hubs, steps, says, n - 1, p);
        MisnumberedNoMore(hubs, steps, says, n - 1, p);
      } else {
        AfterInsert(hubs, steps, says, n - 1);
        StartNumberedIff(hubs, steps, says, n - 1, p - 1);
        MisnumberedOneMore(hubs, steps, says, n - 1);
        Whole(Queued(hubs[n - 1], says));
        Whole(Queued(hubs[n], says));
      }
    }
  }

  /** Exactly when what the server has of a run is numbered 1..n, through any connections, failing updates
      and purges: none of it was queued after an update that queued something and failed, or after a purge. */
  lemma ServerIsNumberedIff(hubs: seq<Hub>, steps: seq<Step>, says: Reading, n: nat)
    requires IsRun(hubs, steps, says) && n <= |steps|
    ensures var known := Of(hubs[n].world.store, says);
            L.WellNumbered(known) <==> !Misnumbered(hubs, steps, says, n, |known|)
  {
    ServerHasAStart(hubs, steps, says, n);
    StartNumberedIff(hubs, steps, says, n, |Of(hubs[n].world.store, says)|);
  }

  // ---------- Updates that are not interrupted ----------

  /** No update fails, nothing is purged, and an ended run stays ended. */
  ghost predicate Calm(h: Hub, s: Step) {
    && !s.Fail? && !s.Forget?
    && (s.Begin? && h.saved.Some? && h.saved.value.info.ended ==> s.run.ended)
  }

  /** The log when the last update was done. */
  ghost function Before(h: Hub, queued: seq<L.Entry>): L.Log
    requires W.LastNo(h.saved) <= |queued|
  {
    L.Log(h.saved, queued[..W.LastNo(h.saved)])
  }

  /** The log is well told, and an update under way has queued the first of its entries. */
  ghost predicate TellsWell(h: Hub, queued: seq<L.Entry>) {
    && W.LastNo(h.saved) <= |queued| && L.WellTold(Before(h, queued))
    && match h.telling
       case None => |queued| == W.LastNo(h.saved)
       case Some(t) =>
         && t.next == L.NextState(h.saved, t.next.info)
         && queued + t.left == Before(h, queued).told + L.EntriesOf(h.saved, t.next.info)
         && (h.saved.Some? && h.saved.value.info.ended ==> t.next.info.ended)
  }

  lemma BeginTellsWell(h: Hub, run: W.RunInfo, queued: seq<L.Entry>, says: Reading)
    requires TellsWell(h, queued) && Enabled(h, Begin(run), says) && Calm(h, Begin(run))
    ensures TellsWell(Next(h, Begin(run), says), queued)
  {
    assert queued[..|queued|] == queued;
  }

  lemma InsertTellsWell(h: Hub, e: O.Event, queued: seq<L.Entry>, says: Reading)
    requires TellsWell(h, queued) && Enabled(h, Insert(e), says)
    ensures TellsWell(Next(h, Insert(e), says), queued + [h.telling.value.left[0]])
  {
    var left := h.telling.value.left;
    assert (queued + [left[0]]) + left[1..] == queued + left;
    assert (queued + [left[0]])[..W.LastNo(h.saved)] == queued[..W.LastNo(h.saved)];
  }

  lemma FinishTellsWell(h: Hub, queued: seq<L.Entry>, says: Reading)
    requires TellsWell(h, queued) && Enabled(h, Finish, says)
    ensures TellsWell(Next(h, Finish, says), queued)
  {
    var run := h.telling.value.next.info;
    L.UpdateKeepsWellTold(Before(h, queued), run);
    assert queued + [] == queued && queued[..|queued|] == queued;
    assert L.AfterUpdate(Before(h, queued), run, L.Fine).told == queued;
  }

  lemma StepTellsWell(h: Hub, s: Step, says: Reading)
    requires TellsWell(h, Queued(h, says)) && Enabled(h, s, says) && Calm(h, s)
    ensures TellsWell(Next(h, s, says), Queued(Next(h, s, says), says))
  {
    StepQueues(h, s, says);
    match s
    case AtBridge(_) =>
    case Begin(run) => BeginTellsWell(h, run, Queued(h, says), says);
    case Insert(e) => InsertTellsWell(h, e, Queued(h, says), says);
    case Finish => FinishTellsWell(h, Queued(h, says), says);
  }

  lemma {:induction false} RunTellsWell(hubs: seq<Hub>, steps: seq<Step>, says: Reading, n: nat)
    requires IsRun(hubs, steps, says) && n <= |steps|
    requires forall i :: 0 <= i < n ==> Calm(hubs[i], steps[i])
    ensures TellsWell(hubs[n], Queued(hubs[n], says))
  {
    if n > 0 {
      RunTellsWell(hubs, steps, says, n - 1);
      assert StepAt(hubs, steps, says, n - 1);
      StepTellsWell(hubs[n - 1], steps[n - 1], says);
    }
  }

  lemma StartIsWellTold(part: seq<L.Entry>, whole: seq<L.Entry>)
    requires part <= whole && L.WellNumbered(whole) && L.Framed(whole)
    ensures L.WellNumbered(part) && L.Framed(part)
  {
  }

  lemma QueuedIsWellTold(h: Hub, queued: seq<L.Entry>)
    requires TellsWell(h, queued)
    ensures L.WellNumbered(queued) && L.Framed(queued)
  {
    if h.telling.Some? {
      var run := h.telling.value.next.info;
      L.UpdateKeepsWellTold(Before(h, queued), run);
      StartIsWellTold(queued, L.AfterUpdate(Before(h, queued), run, L.Fine).told);
    } else {
      assert queued[..|queued|] == queued;
    }
  }

  /** Through any number of connections and disconnects, and in the middle of an update: what the server
      has stored of a run is numbered 1..n, started first and only once, and ended only last. */
  lemma ServerIsToldWell(hubs: seq<Hub>, steps: seq<Step>, says: Reading, n: nat)
    requires IsRun(hubs, steps, says) && n <= |steps|
    requires forall i :: 0 <= i < n ==> Calm(hubs[i], steps[i])
    ensures L.WellNumbered(Of(hubs[n].world.store, says)) && L.Framed(Of(hubs[n].world.store, says))
  {
    RunTellsWell(hubs, steps, says, n);
    ServerHasAStart(hubs, steps, says, n);
    QueuedIsWellTold(hubs[n], Queued(hubs[n], says));
    StartIsWellTold(Of(hubs[n].world.store, says), Queued(hubs[n], says));
  }

  /** Between updates, and once a connection has nothing left to send and nothing under way: the server
      knows whether the run has ended and, until then, whether a request is open. */
  lemma ServerKnowsTheRun(hubs: seq<Hub>, steps: seq<Step>, says: Reading, n: nat, c: nat)
    requires IsRun(hubs, steps, says) && n <= |steps| && hubs[n].telling == None && hubs[n].saved.Some?
    requires forall i :: 0 <= i < n ==> Calm(hubs[i], steps[i])
    requires var w := hubs[n].world;
             c in w.links && O.Waiting(w.outbox, w.links[c].lastSent) == [] && w.links[c].wire == []
    ensures var known, run := Of(hubs[n].world.store, says), hubs[n].saved.value.info;
            && (L.Over(known) <==> run.ended)
            && (!run.ended ==> (L.Asking(known) <==> run.request.Some?))
  {
    RunIsSafe(hubs, steps, says, n);
    RunTellsWell(hubs, steps, says, n);
    B.NothingLeftMeansAllStored(hubs[n].world, c);
    var queued := Queued(hubs[n], says);
    assert queued[..|queued|] == queued;
  }
}
