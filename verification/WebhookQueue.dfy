/** How an update is queued for several integrations, each by its own choice. */
module WebhookQueue {
  import opened Wrappers
  import opened Webhooks
  import opened WebhookLog
  import opened Sequences

  datatype Kind = Webhook | Bridge | OtherKind

  /** An integration, as one run's machine and its content level meet it. */
  datatype Hook = Hook(id: nat, kind: Kind, enabled: bool, picks: seq<EventType>, allowed: bool, titles: bool)

  datatype Row = Row(hook: nat, entry: Entry)

  /** Only webhooks choose: an empty choice is all events. Nobody without titles hears of one. */
  predicate Gets(h: Hook, e: EventType) {
    && h.allowed
    && (h.kind == Webhook && h.picks != [] ==> e in h.picks)
    && (e == Title ==> h.titles)
  }

  predicate Listens(h: Hook) { h.enabled && h.kind != OtherKind }

  function Listening(hooks: seq<Hook>): seq<Hook>
    decreases |hooks|
  {
    if hooks == [] then []
    else
      var last := hooks[|hooks| - 1];
      Listening(hooks[..|hooks| - 1]) + if Listens(last) then [last] else []
  }

  function Share(h: Hook, entries: seq<Entry>): seq<Entry>
    decreases |entries|
  {
    if entries == [] then []
    else
      var last := entries[|entries| - 1];
      Share(h, entries[..|entries| - 1]) + if Gets(h, last.event) then [last] else []
  }

  function Tagged(id: nat, entries: seq<Entry>): seq<Row>
    decreases |entries|
  {
    if entries == [] then []
    else Tagged(id, entries[..|entries| - 1]) + [Row(id, entries[|entries| - 1])]
  }

  /** Hook after hook, each with its share in order. */
  function QueueFor(hooks: seq<Hook>, entries: seq<Entry>): seq<Row>
    decreases |hooks|
  {
    if hooks == [] then []
    else
      var last := hooks[|hooks| - 1];
      QueueFor(hooks[..|hooks| - 1], entries) + Tagged(last.id, Share(last, entries))
  }

  /** What is queued for one integration. */
  function For(id: nat, rows: seq<Row>): seq<Entry>
    decreases |rows|
  {
    if rows == [] then []
    else
      var last := rows[|rows| - 1];
      For(id, rows[..|rows| - 1]) + if last.hook == id then [last.entry] else []
  }

  lemma {:induction false} SharesGrow(h: Hook, entries: seq<Entry>, n: nat)
    requires n <= |entries|
    ensures Tagged(h.id, Share(h, entries[..n])) <= Tagged(h.id, Share(h, entries))
    decreases |entries|
  {
    if n == |entries| {
      assert entries[..n] == entries;
    } else {
      var fewer := entries[..|entries| - 1];
      assert entries[..n] == fewer[..n];
      SharesGrow(h, fewer, n);
      var share := Share(h, entries);
      assert share == Share(h, fewer) || share[..|share| - 1] == Share(h, fewer);
    }
  }

  lemma {:induction false} QueuesGrow(hooks: seq<Hook>, entries: seq<Entry>, i: nat, n: nat)
    requires i < |hooks| && n <= |entries|
    ensures QueueFor(hooks[..i], entries) + Tagged(hooks[i].id, Share(hooks[i], entries[..n])) <=
            QueueFor(hooks, entries)
    decreases |hooks|
  {
    var fewer := hooks[..|hooks| - 1];
    SharesGrow(hooks[i], entries, n);
    if i < |fewer| {
      assert hooks[..i] == fewer[..i];
      QueuesGrow(fewer, entries, i, n);
    }
  }

  lemma ShareOneMore(h: Hook, entries: seq<Entry>, j: nat)
    requires j < |entries|
    ensures Tagged(h.id, Share(h, entries[..j + 1])) ==
            Tagged(h.id, Share(h, entries[..j])) + if Gets(h, entries[j].event) then [Row(h.id, entries[j])] else []
  {
    var share := Share(h, entries[..j]);
    assert entries[..j + 1][..j] == entries[..j];
    assert (share + [entries[j]])[..|share|] == share;
    assert Share(h, entries[..j + 1]) == if Gets(h, entries[j].event) then share + [entries[j]] else share;
  }

  lemma CutWithin(done: seq<Row>, part: seq<Row>, wanted: seq<Row>, room: nat)
    requires done + part <= wanted && |done| <= room
    ensures |done| + |part| > room ==> done + AtMost(part, room - |done|) == AtMost(wanted, room)
  {
  }

  /** After the first `i` hooks: the next one's part fits, or it is where the whole queue is cut. */
  lemma QueueOneMore(hooks: seq<Hook>, entries: seq<Entry>, i: nat, room: nat, done: seq<Row>)
    requires i < |hooks| && done == QueueFor(hooks[..i], entries) && |done| <= room
    ensures var part := Tagged(hooks[i].id, Share(hooks[i], entries));
            var wanted := QueueFor(hooks, entries);
            if |done| + |part| > room then |wanted| > room && done + AtMost(part, room - |done|) == AtMost(wanted, room)
            else AtMost(part, room - |done|) == part && done + part == QueueFor(hooks[..i + 1], entries)
  {
    var part := Tagged(hooks[i].id, Share(hooks[i], entries));
    assert hooks[..i + 1][..i] == hooks[..i] && entries[..|entries|] == entries;
    QueuesGrow(hooks, entries, i, |entries|);
    CutWithin(done, part, QueueFor(hooks, entries), room);
  }

  /** One run's saved state, and the rows queued for it. */
  datatype Queue = Queue(saved: Option<RunState>, rows: seq<Row>)

  /** One update. `selects`: the reads work; `room` inserts work before one fails; `saves`: the state can
      be saved. */
  datatype Call = Call(hooks: seq<Hook>, run: RunInfo, selects: bool, room: nat, saves: bool)

  function Wanted(q: Queue, c: Call): seq<Row> { QueueFor(Listening(c.hooks), EntriesOf(q.saved, c.run)) }

  /** Nothing stops the update. */
  predicate Goes(q: Queue, c: Call) { c.selects && |Wanted(q, c)| <= c.room && c.saves }

  function Called(q: Queue, c: Call): Queue {
    if !c.selects || Listening(c.hooks) == [] then q
    else
      Queue(if Goes(q, c) then Some(NextState(q.saved, c.run)) else q.saved,
            q.rows + AtMost(Wanted(q, c), c.room))
  }

  /** The outbox, and one run's saved state. */
  class Outbox {
    var saved: Option<RunState>
    var rows: seq<Row>

    function State(): Queue
      reads this
    {
      Queue(saved, rows)
    }

    constructor ()
      ensures State() == Queue(None, [])
    {
      saved, rows := None, [];
    }

    /** Inserts one integration's share; `room` inserts work before one fails. */
    method QueueShare(hook: Hook, entries: seq<Entry>, room: nat) returns (ok: bool, count: nat)
      modifies this`rows
      ensures var share := Tagged(hook.id, Share(hook, entries));
              rows == old(rows) + AtMost(share, room) && (ok <==> |share| <= room) && (ok ==> count == |share|)
    {
      ghost var share := Tagged(hook.id, Share(hook, entries));
      count := 0;
      var j := 0;
      while j < |entries|
        invariant j <= |entries| && count <= room && count == |Tagged(hook.id, Share(hook, entries[..j]))|
        invariant rows == old(rows) + Tagged(hook.id, Share(hook, entries[..j]))
      {
        ShareOneMore(hook, entries, j);
        if Gets(hook, entries[j].event) {
          if count == room {
            SharesGrow(hook, entries, j);
            SharesGrow(hook, entries, j + 1);
            return false, count;
          }
          rows := rows + [Row(hook.id, entries[j])];
          count := count + 1;
        }
        j := j + 1;
      }
      assert entries[..j] == entries;
      ok := true;
    }

    method QueueAll(hooks: seq<Hook>, entries: seq<Entry>, room: nat) returns (ok: bool, count: nat)
      modifies this`rows
      ensures var wanted := QueueFor(hooks, entries);
              rows == old(rows) + AtMost(wanted, room) && (ok <==> |wanted| <= room) && (ok ==> count == |wanted|)
    {
      ghost var was, done := rows, [];
      count := 0;
      var i := 0;
      while i < |hooks|
        invariant i <= |hooks| && done == QueueFor(hooks[..i], entries)
        invariant count == |done| <= room && rows == was + done
      {
        QueueOneMore(hooks, entries, i, room, done);
        ghost var part := Tagged(hooks[i].id, Share(hooks[i], entries));
        Regroup(was, done, AtMost(part, room - count));
        var queued;
        ok, queued := QueueShare(hooks[i], entries, room - count);
        if !ok {
          return;
        }
        done := done + part;
        count := count + queued;
        i := i + 1;
      }
      assert hooks[..i] == hooks;
      ok := true;
    }

    /** Err: it stopped there; otherwise how many rows it queued. */
    method OnRun(hooks: seq<Hook>, run: RunInfo, selects: bool, room: nat, saves: bool)
        returns (queued: Result<nat, ()>)
      modifies this
      ensures var was, call := old(State()), Call(hooks, run, selects, room, saves);
              && State() == Called(was, call)
              && queued == (if !selects then Err(())
                            else if Listening(hooks) == [] then Ok(0)
                            else if Goes(was, call) then Ok(|Wanted(was, call)|)
                            else Err(()))
    {
      if !selects {
        return Err(());
      }
      var listening := Listening(hooks);
      if listening == [] {
        return Ok(0);
      }
      var events, next := Changes(saved, run);
      var entries := Numbered(events, next.last + 1);
      next := next.(last := next.last + |events|);
      assert entries == EntriesOf(old(saved), run) && next == NextState(old(saved), run);
      var ok, count := QueueAll(listening, entries, room);
      if !ok || !saves {
        return Err(());
      }
      saved := Some(next);
      return Ok(count);
    }
  }

  lemma {:induction false} ForSplits(id: nat, a: seq<Row>, b: seq<Row>)
    ensures For(id, a + b) == For(id, a) + For(id, b)
    decreases |b|
  {
    if b == [] {
      assert a + b == a;
    } else {
      assert (a + b)[..|a + b| - 1] == a + b[..|b| - 1];
      ForSplits(id, a, b[..|b| - 1]);
    }
  }

  lemma {:induction false} ForTagged(id: nat, other: nat, entries: seq<Entry>)
    ensures For(id, Tagged(other, entries)) == if id == other then entries else []
    decreases |entries|
  {
    if entries != [] {
      var n := |entries| - 1;
      ForTagged(id, other, entries[..n]);
      ForSplits(id, Tagged(other, entries[..n]), [Row(other, entries[n])]);
      assert For(id, [Row(other, entries[n])]) == if id == other then [entries[n]] else [];
    }
  }

  ghost predicate DistinctIds(hooks: seq<Hook>) {
    forall i, j :: 0 <= i < j < |hooks| ==> hooks[i].id != hooks[j].id
  }

  /** The shares of all hooks with this id, one after the other. */
  function SharesOf(hooks: seq<Hook>, entries: seq<Entry>, id: nat): seq<Entry>
    decreases |hooks|
  {
    if hooks == [] then []
    else
      var last := hooks[|hooks| - 1];
      var before := SharesOf(hooks[..|hooks| - 1], entries, id);
      if last.id == id then before + Share(last, entries) else before
  }

  lemma {:induction false} ForIsShares(hooks: seq<Hook>, entries: seq<Entry>, id: nat)
    ensures For(id, QueueFor(hooks, entries)) == SharesOf(hooks, entries, id)
    decreases |hooks|
  {
    if hooks != [] {
      var n := |hooks| - 1;
      ForIsShares(hooks[..n], entries, id);
      ForSplits(id, QueueFor(hooks[..n], entries), Tagged(hooks[n].id, Share(hooks[n], entries)));
      ForTagged(id, hooks[n].id, Share(hooks[n], entries));
    }
  }

  lemma {:induction false} NobodysShares(hooks: seq<Hook>, entries: seq<Entry>, id: nat)
    requires forall i :: 0 <= i < |hooks| ==> hooks[i].id != id
    ensures SharesOf(hooks, entries, id) == []
    decreases |hooks|
  {
    if hooks != [] {
      NobodysShares(hooks[..|hooks| - 1], entries, id);
    }
  }

  lemma {:induction false} OnesShares(hooks: seq<Hook>, entries: seq<Entry>, i: nat)
    requires DistinctIds(hooks) && i < |hooks|
    ensures SharesOf(hooks, entries, hooks[i].id) == Share(hooks[i], entries)
    decreases |hooks|
  {
    var before := hooks[..|hooks| - 1];
    if i < |before| {
      OnesShares(before, entries, i);
    } else {
      NobodysShares(before, entries, hooks[i].id);
    }
  }

  /** Each integration gets its share, in order, and nothing else. */
  lemma ForQueue(hooks: seq<Hook>, entries: seq<Entry>, i: nat)
    requires DistinctIds(hooks) && i < |hooks|
    ensures For(hooks[i].id, QueueFor(hooks, entries)) == Share(hooks[i], entries)
  {
    ForIsShares(hooks, entries, hooks[i].id);
    OnesShares(hooks, entries, i);
  }

  /** Cutting the queue cuts each integration's part. */
  lemma CutForOne(id: nat, rows: seq<Row>, n: nat)
    ensures For(id, AtMost(rows, n)) == AtMost(For(id, rows), |For(id, AtMost(rows, n))|)
    ensures |rows| <= n ==> AtMost(rows, n) == rows
  {
    if n < |rows| {
      assert rows == rows[..n] + rows[n..];
      ForSplits(id, rows[..n], rows[n..]);
    }
  }

  lemma {:induction false} ShareOfAll(h: Hook, entries: seq<Entry>)
    requires h.allowed && h.kind != Webhook && h.titles
    ensures Share(h, entries) == entries
    decreases |entries|
  {
    if entries != [] {
      ShareOfAll(h, entries[..|entries| - 1]);
    }
  }

  lemma {:induction false} ShareSplits(h: Hook, a: seq<Entry>, b: seq<Entry>)
    ensures Share(h, a + b) == Share(h, a) + Share(h, b)
    decreases |b|
  {
    if b == [] {
      assert a + b == a;
    } else {
      assert (a + b)[..|a + b| - 1] == a + b[..|b| - 1];
      ShareSplits(h, a, b[..|b| - 1]);
    }
  }

  lemma {:induction false} ListeningHas(hooks: seq<Hook>)
    ensures forall h :: h in Listening(hooks) <==> h in hooks && Listens(h)
    decreases |hooks|
  {
    if hooks != [] {
      var n := |hooks| - 1;
      ListeningHas(hooks[..n]);
      assert hooks == hooks[..n] + [hooks[n]];
    }
  }

  lemma {:induction false} ListeningDistinct(hooks: seq<Hook>)
    requires DistinctIds(hooks)
    ensures DistinctIds(Listening(hooks))
    decreases |hooks|
  {
    if hooks != [] {
      var n := |hooks| - 1;
      var fewer := Listening(hooks[..n]);
      ListeningDistinct(hooks[..n]);
      ListeningHas(hooks[..n]);
      forall i | 0 <= i < |fewer| ensures fewer[i].id != hooks[n].id {
        assert fewer[i] in fewer;
        var j :| 0 <= j < n && hooks[j] == fewer[i];
      }
    }
  }

  lemma ListeningIs(hooks: seq<Hook>)
    requires DistinctIds(hooks)
    ensures DistinctIds(Listening(hooks))
    ensures forall h :: h in Listening(hooks) <==> h in hooks && Listens(h)
  {
    ListeningDistinct(hooks);
    ListeningHas(hooks);
  }

  /** A bridge that may see everything. */
  predicate SeesAll(h: Hook) { h.enabled && h.kind == Bridge && h.allowed && h.titles }

  /** The run's log, by what is queued for one integration. */
  function LogFor(h: Hook, q: Queue): Log { Log(q.saved, For(h.id, q.rows)) }

  /** What an update queues for such a bridge is the next of the run's event log, whatever other
      integrations there are, and an interrupted update cuts its part somewhere. */
  lemma BridgeGetsTheLog(q: Queue, c: Call, h: Hook) returns (fault: Fault)
    requires SeesAll(h) && DistinctIds(c.hooks) && h in c.hooks
    ensures fault == Fine <==> Goes(q, c)
    ensures LogFor(h, Called(q, c)) == AfterUpdate(LogFor(h, q), c.run, fault)
  {
    ListeningIs(c.hooks);
    if !c.selects {
      return Cut(0);
    }
    var listening, entries := Listening(c.hooks), EntriesOf(q.saved, c.run);
    var added := AtMost(Wanted(q, c), c.room);
    var i :| 0 <= i < |listening| && listening[i] == h;
    ForQueue(listening, entries, i);
    ShareOfAll(h, entries);
    ForSplits(h.id, q.rows, added);
    CutForOne(h.id, Wanted(q, c), c.room);
    var part := For(h.id, added);
    assert For(h.id, q.rows + added) == For(h.id, q.rows) + part && part == AtMost(entries, |part|);
    fault := if Goes(q, c) then Fine else Cut(|part|);
  }

  /** Any other integration gets a part of the same log, with the same numbers and in the same order. */
  lemma OthersGetTheirShare(hooks: seq<Hook>, h: Hook, saved: Option<RunState>, rows: seq<Row>, told: seq<Entry>,
      run: RunInfo)
    requires DistinctIds(hooks) && h in hooks && Listens(h) && For(h.id, rows) == Share(h, told)
    ensures For(h.id, rows + QueueFor(Listening(hooks), EntriesOf(saved, run))) ==
            Share(h, AfterUpdate(Log(saved, told), run, Fine).told)
  {
    var listening := Listening(hooks);
    var entries := EntriesOf(saved, run);
    ListeningIs(hooks);
    var i :| 0 <= i < |listening| && listening[i] == h;
    ForQueue(listening, entries, i);
    ForSplits(h.id, rows, QueueFor(listening, entries));
    ShareSplits(h, told, entries);
  }
}
