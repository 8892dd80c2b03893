/**
  Bridge events over any run of queuing, connecting, dropping, sending and acknowledging, with any
  number of connections at once: two calls of `sync` at the same time can start one each, and then only
  the newer is ever cancelled.
*/
module BridgeEvents {
  import opened BridgeOutbox
  import opened Sequences

  /** One connection: what its send loop fetched and did not send yet, and what is under way. */
  datatype Link = Link(lastSent: nat, batch: seq<Event>, wire: seq<Event>)

  /** The hub's outbox, the connections, and what the server has stored. */
  datatype World = World(outbox: Outbox, links: map<nat, Link>, store: seq<Event>)

  datatype Step =
    | Queue(event: Event)
    | Connect(link: nat)
    | Drop(link: nat)
    | Fetch(link: nat)
    | Send(link: nat)
    | Arrive(link: nat)
    | Ack(link: nat, upTo: nat, recorded: bool)

  const FRESH_LINK := Link(0, [], [])
  const NOTHING_YET := World(Outbox([], {}), map[], [])

  /** Outbox ids only grow; the server acknowledges only what it has stored. A connection hears an
      acknowledgement when it has nothing left to send of what it fetched, and may fail to record it. */
  ghost predicate Enabled(w: World, s: Step) {
    match s
    case Queue(e) => e.id > 0 && forall prior <- w.outbox.rows :: prior.id < e.id
    case Connect(c) => c !in w.links
    case Drop(c) => c in w.links
    case Fetch(c) => c in w.links && w.links[c].batch == []
    case Send(c) => c in w.links && w.links[c].batch != []
    case Arrive(c) => c in w.links && w.links[c].wire != []
    case Ack(c, upTo, _) => c in w.links && w.links[c].batch == [] && upTo <= NewestId(w.store, 0)
  }

  predicate Stored(store: seq<Event>, id: nat) { exists e <- store :: e.id == id }

  /** The server drops an event whose `seq` it has stored. */
  function Kept(store: seq<Event>, e: Event): seq<Event> { if Stored(store, e.id) then store else store + [e] }

  function Marked(o: Outbox, upTo: nat): Outbox {
    o.(delivered := o.delivered + set e <- o.rows | e.id <= upTo :: e.id)
  }

  function SentHead(l: Link): Link
    requires l.batch != []
  {
    Link(l.batch[0].id, l.batch[1..], l.wire + [l.batch[0]])
  }

  function Next(w: World, s: Step): World
    requires Enabled(w, s)
  {
    match s
    case Queue(e) => w.(outbox := w.outbox.(rows := w.outbox.rows + [e]))
    case Connect(c) => w.(links := w.links[c := FRESH_LINK])
    case Drop(c) => w.(links := w.links - {c})
    case Fetch(c) =>
      var l := w.links[c];
      w.(links := w.links[c := l.(batch := Unacked(w.outbox, l.lastSent, BATCH))])
    case Send(c) =>
      var l := w.links[c];
      w.(links := w.links[c := SentHead(l)])
    case Arrive(c) =>
      var l := w.links[c];
      w.(links := w.links[c := l.(wire := l.wire[1..])], store := Kept(w.store, l.wire[0]))
    case Ack(_, upTo, recorded) => if recorded then w.(outbox := Marked(w.outbox, upTo)) else w
  }

  /** What a connection has sent is stored or under way, in order, and so will be what it fetched. */
  ghost predicate WireOk(rows: seq<Event>, store: seq<Event>, lastSent: nat, wire: seq<Event>) {
    && Increasing(wire)
    && (forall e <- wire :: e in rows && e.id <= lastSent)
    && (forall e <- rows :: e.id <= lastSent ==> e in store || e in wire)
  }

  ghost predicate BatchOk(rows: seq<Event>, store: seq<Event>, lastSent: nat, batch: seq<Event>) {
    && Increasing(batch)
    && (forall e <- batch :: e in rows && e.id > lastSent)
    && (forall e <- rows :: lastSent < e.id <= NewestId(batch, 0) ==> e in store || e in batch)
  }

  ghost predicate LinkOk(rows: seq<Event>, store: seq<Event>, l: Link) {
    && l.lastSent <= NewestId(rows, 0)
    && WireOk(rows, store, l.lastSent, l.wire) && BatchOk(rows, store, l.lastSent, l.batch)
  }

  ghost predicate NothingLost(w: World) {
    && w.store <= w.outbox.rows
    && forall e <- w.outbox.rows :: e.id in w.outbox.delivered ==> e in w.store
  }

  ghost predicate Safe(w: World) {
    && Increasing(w.outbox.rows)
    && (forall e <- w.outbox.rows :: e.id > 0)
    && (forall id <- w.outbox.delivered :: id <= NewestId(w.outbox.rows, 0))
    && NothingLost(w)
    && forall c <- w.links :: LinkOk(w.outbox.rows, w.store, w.links[c])
  }

  /** What arrives first is stored already or is the next one missing. */
  lemma ArrivesInOrder(rows: seq<Event>, store: seq<Event>, l: Link)
    requires Increasing(rows) && store <= rows && LinkOk(rows, store, l) && l.wire != []
    ensures Stored(store, l.wire[0].id) || (|store| < |rows| && l.wire[0] == rows[|store|])
    ensures Kept(store, l.wire[0]) <= rows && l.wire[0] in Kept(store, l.wire[0])
  {
    var e := l.wire[0];
    assert e in rows;
    var i :| 0 <= i < |rows| && rows[i] == e;
    if i < |store| {
      assert store[i] == e;
    } else {
      var missing := rows[|store|];
      assert missing !in store;
      assert missing.id <= l.lastSent && missing in l.wire;
      assert i == |store|;
      forall prior <- store ensures prior.id < e.id {
        var k :| 0 <= k < |store| && store[k] == prior;
        assert rows[k] == prior;
      }
    }
  }

  lemma FetchKeepsBatchOk(o: Outbox, store: seq<Event>, lastSent: nat, limit: nat)
    requires Increasing(o.rows)
    requires forall e <- o.rows :: e.id in o.delivered ==> e in store
    ensures BatchOk(o.rows, store, lastSent, Unacked(o, lastSent, limit))
  {
    var waiting := Waiting(o, lastSent);
    var batch := Unacked(o, lastSent, limit);
    WaitingIsWhatIsUnacked(o, lastSent);
    forall e <- o.rows | lastSent < e.id <= NewestId(batch, 0)
      ensures e in store || e in batch
    {
      if e.id !in o.delivered {
        var i :| 0 <= i < |waiting| && waiting[i] == e;
        assert i < |batch| && batch[i] == e;
      }
    }
  }

  lemma SendKeepsWireOk(rows: seq<Event>, store: seq<Event>, l: Link)
    requires LinkOk(rows, store, l) && l.batch != []
    ensures WireOk(rows, store, l.batch[0].id, l.wire + [l.batch[0]])
  {
    var e := l.batch[0];
    var sent := l.wire + [e];
    assert e in l.batch && e in sent;
    forall i, j | 0 <= i < j < |sent| ensures sent[i].id < sent[j].id {
      assert sent[i] in l.wire;
    }
    forall prior <- rows | prior.id <= e.id ensures prior in store || prior in sent {
      if prior.id > l.lastSent && prior !in store {
        assert e.id <= NewestId(l.batch, 0);
        var i :| 0 <= i < |l.batch| && l.batch[i] == prior;
        assert i == 0;
      }
    }
  }

  lemma SendKeepsBatchOk(rows: seq<Event>, store: seq<Event>, l: Link)
    requires BatchOk(rows, store, l.lastSent, l.batch) && l.batch != []
    ensures BatchOk(rows, store, l.batch[0].id, l.batch[1..])
  {
    var rest := l.batch[1..];
    assert l.batch[0] in l.batch;
    forall e <- rest ensures e in l.batch && e.id > l.batch[0].id {
      var i :| 0 <= i < |rest| && rest[i] == e;
      assert l.batch[i + 1] == e;
    }
    forall e <- rows | l.batch[0].id < e.id <= NewestId(rest, 0) ensures e in store || e in rest {
      if e !in store {
        var i :| 0 <= i < |l.batch| && l.batch[i] == e;
        assert rest[i - 1] == e;
      }
    }
  }

  lemma SendKeepsLinkOk(rows: seq<Event>, store: seq<Event>, l: Link)
    requires Increasing(rows) && LinkOk(rows, store, l) && l.batch != []
    ensures LinkOk(rows, store, SentHead(l))
  {
    SendKeepsWireOk(rows, store, l);
    SendKeepsBatchOk(rows, store, l);
    assert l.batch[0] in l.batch;
    var i :| 0 <= i < |rows| && rows[i] == l.batch[0];
  }

  /** The link after sending the first `n` of its batch. */
  function Sent(l: Link, n: nat): Link
    requires n <= |l.batch|
  {
    Link(NewestId(l.batch[..n], l.lastSent), l.batch[n..], l.wire + l.batch[..n])
  }

  lemma SentOneMore(l: Link, n: nat)
    requires 0 < n <= |l.batch|
    ensures Sent(l, n) == SentHead(Sent(l, n - 1))
  {
    assert l.batch[..n] == l.batch[..n - 1] + [l.batch[n - 1]];
    assert l.wire + l.batch[..n] == l.wire + l.batch[..n - 1] + [l.batch[n - 1]];
  }

  lemma {:induction false} SendsKeepLinkOk(rows: seq<Event>, store: seq<Event>, l: Link, n: nat)
    requires Increasing(rows) && LinkOk(rows, store, l) && n <= |l.batch|
    ensures LinkOk(rows, store, Sent(l, n))
    decreases n
  {
    if n == 0 {
      assert Sent(l, n) == l;
    } else {
      SendsKeepLinkOk(rows, store, l, n - 1);
      SendKeepsLinkOk(rows, store, Sent(l, n - 1));
      SentOneMore(l, n);
    }
  }

  /** What one run of the send loop does (`Connection.SendPending`), wherever the connection breaks,
      is a fetch and some sends, so it keeps every promise too. */
  lemma SendLoopKeepsWireOk(o: Outbox, store: seq<Event>, l: Link, sends: nat)
    requires Increasing(o.rows) && LinkOk(o.rows, store, l)
    requires forall e <- o.rows :: e.id in o.delivered ==> e in store
    ensures var sent := AtMost(Waiting(o, l.lastSent), sends);
            WireOk(o.rows, store, NewestId(sent, l.lastSent), l.wire + sent)
  {
    var waiting := Waiting(o, l.lastSent);
    FetchKeepsBatchOk(o, store, l.lastSent, |waiting|);
    var n := if sends < |waiting| then sends else |waiting|;
    assert AtMost(waiting, sends) == waiting[..n];
    SendsKeepLinkOk(o.rows, store, l.(batch := waiting), n);
  }

  /** Storing or queuing more does no harm to any connection. */
  lemma GrowthKeepsLinkOk(rows: seq<Event>, more: seq<Event>, store: seq<Event>, stored: seq<Event>, l: Link)
    requires LinkOk(rows, store, l)
    requires forall e <- store :: e in stored
    requires forall e <- rows :: e in more
    requires Increasing(rows) && forall e <- more :: e in rows || e.id > NewestId(rows, 0)
    requires NewestId(rows, 0) <= NewestId(more, 0)
    ensures LinkOk(more, stored, l)
  {
    forall e <- more | e.id <= l.lastSent || e.id <= NewestId(l.batch, 0) ensures e in rows {
      if l.batch != [] {
        assert l.batch[|l.batch| - 1] in l.batch;
        var i :| 0 <= i < |rows| && rows[i] == l.batch[|l.batch| - 1];
      }
    }
  }

  lemma NewerKeepsIncreasing(rows: seq<Event>, e: Event)
    requires Increasing(rows) && forall prior <- rows :: prior.id < e.id
    ensures Increasing(rows + [e]) && NewestId(rows, 0) <= NewestId(rows + [e], 0)
    ensures e.id > 0 ==> e.id > NewestId(rows, 0)
  {
    var more := rows + [e];
    forall i, j | 0 <= i < j < |more| ensures more[i].id < more[j].id {
      assert rows[i] in rows;
    }
    assert rows == [] || rows[|rows| - 1] in rows;
  }

  lemma QueueKeepsSafe(w: World, e: Event)
    requires Safe(w) && Enabled(w, Queue(e))
    ensures Safe(Next(w, Queue(e)))
  {
    var rows := w.outbox.rows;
    var more := rows + [e];
    NewerKeepsIncreasing(rows, e);
    forall c <- w.links ensures LinkOk(more, w.store, w.links[c]) {
      GrowthKeepsLinkOk(rows, more, w.store, w.store, w.links[c]);
    }
  }

  lemma ArrivalKeepsWireOk(rows: seq<Event>, store: seq<Event>, lastSent: nat, wire: seq<Event>)
    requires WireOk(rows, store, lastSent, wire) && wire != [] && wire[0] in store
    ensures WireOk(rows, store, lastSent, wire[1..])
  {
    assert wire == [wire[0]] + wire[1..];
  }

  lemma StoredMore(rows: seq<Event>, store: seq<Event>, stored: seq<Event>, l: Link)
    requires LinkOk(rows, store, l) && forall e <- store :: e in stored
    ensures LinkOk(rows, stored, l)
  {
  }

  lemma ArrivalKeepsLinkOk(rows: seq<Event>, store: seq<Event>, l: Link)
    requires Increasing(rows) && store <= rows && LinkOk(rows, store, l) && l.wire != []
    ensures LinkOk(rows, Kept(store, l.wire[0]), l.(wire := l.wire[1..]))
  {
    var stored := Kept(store, l.wire[0]);
    ArrivesInOrder(rows, store, l);
    StoredMore(rows, store, stored, l);
    ArrivalKeepsWireOk(rows, stored, l.lastSent, l.wire);
  }

  lemma ArrivalLosesNothing(w: World, c: nat)
    requires Safe(w) && Enabled(w, Arrive(c))
    ensures NothingLost(Next(w, Arrive(c)))
  {
    ArrivesInOrder(w.outbox.rows, w.store, w.links[c]);
  }

  lemma ArriveKeepsSafe(w: World, c: nat)
    requires Safe(w) && Enabled(w, Arrive(c))
    ensures Safe(Next(w, Arrive(c)))
  {
    var rows := w.outbox.rows;
    var stored := Kept(w.store, w.links[c].wire[0]);
    var m := Next(w, Arrive(c));
    ArrivalLosesNothing(w, c);
    ArrivalKeepsLinkOk(rows, w.store, w.links[c]);
    forall d <- m.links ensures LinkOk(rows, stored, m.links[d]) {
      if d != c {
        StoredMore(rows, w.store, stored, w.links[d]);
      }
    }
  }

  lemma AckedIsStored(rows: seq<Event>, store: seq<Event>, upTo: nat, e: Event)
    requires Increasing(rows) && store <= rows && upTo <= NewestId(store, 0)
    requires e in rows && 0 < e.id <= upTo
    ensures e in store
  {
    var i :| 0 <= i < |rows| && rows[i] == e;
    assert i < |store|;
    assert store[i] == e;
  }

  lemma AckKeepsSafe(w: World, c: nat, upTo: nat)
    requires Safe(w) && Enabled(w, Ack(c, upTo, true))
    ensures Safe(Next(w, Ack(c, upTo, true)))
  {
    var rows := w.outbox.rows;
    forall e <- rows | e.id in Marked(w.outbox, upTo).delivered ensures e in w.store {
      if e.id !in w.outbox.delivered {
        AckedIsStored(rows, w.store, upTo, e);
      }
    }
  }

  lemma FetchKeepsSafe(w: World, c: nat)
    requires Safe(w) && Enabled(w, Fetch(c))
    ensures Safe(Next(w, Fetch(c)))
  {
    FetchKeepsBatchOk(w.outbox, w.store, w.links[c].lastSent, BATCH);
  }

  lemma SendKeepsSafe(w: World, c: nat)
    requires Safe(w) && Enabled(w, Send(c))
    ensures Safe(Next(w, Send(c)))
  {
    SendKeepsLinkOk(w.outbox.rows, w.store, w.links[c]);
  }

  /** Every step keeps every promise. */
  lemma StepKeepsSafe(w: World, s: Step)
    requires Safe(w) && Enabled(w, s)
    ensures Safe(Next(w, s))
  {
    match s
    case Queue(e) => QueueKeepsSafe(w, e);
    case Connect(_) =>
    case Drop(_) =>
    case Fetch(c) => FetchKeepsSafe(w, c);
    case Send(c) => SendKeepsSafe(w, c);
    case Arrive(c) => ArriveKeepsSafe(w, c);
    case Ack(c, upTo, recorded) =>
      if recorded {
        AckKeepsSafe(w, c, upTo);
      }
  }

  ghost predicate IsRun(worlds: seq<World>, steps: seq<Step>) {
    && |worlds| == |steps| + 1
    && worlds[0] == NOTHING_YET
    && forall i :: 0 <= i < |steps| ==> StepAt(worlds, steps, i)
  }

  ghost predicate StepAt(worlds: seq<World>, steps: seq<Step>, i: int)
    requires |worlds| == |steps| + 1 && 0 <= i < |steps|
  {
    Enabled(worlds[i], steps[i]) && worlds[i + 1] == Next(worlds[i], steps[i])
  }

  lemma {:induction false} RunIsSafe(worlds: seq<World>, steps: seq<Step>, n: nat)
    requires IsRun(worlds, steps) && n <= |steps|
    ensures Safe(worlds[n])
    decreases n
  {
    if n > 0 {
      RunIsSafe(worlds, steps, n - 1);
      assert StepAt(worlds, steps, n - 1);
      StepKeepsSafe(worlds[n - 1], steps[n - 1]);
    }
  }

  /** Over every run: the server's store is a gap-free prefix of the outbox, in its order and with
      no repeats, and nothing it has not stored is marked delivered. */
  lemma ServerHasAPrefix(worlds: seq<World>, steps: seq<Step>, n: nat)
    requires IsRun(worlds, steps) && n <= |steps|
    ensures worlds[n].store <= worlds[n].outbox.rows && Increasing(worlds[n].store)
    ensures forall e <- worlds[n].outbox.rows :: e.id in worlds[n].outbox.delivered ==> e in worlds[n].store
  {
    RunIsSafe(worlds, steps, n);
  }

  /** A disconnect loses nothing, however long: once any connection has nothing left to send and
      nothing under way, the server has everything ever queued. */
  lemma NothingLeftMeansAllStored(w: World, c: nat)
    requires Safe(w) && c in w.links
    requires Waiting(w.outbox, w.links[c].lastSent) == [] && w.links[c].wire == []
    ensures w.store == w.outbox.rows
  {
    var rows := w.outbox.rows;
    WaitingIsWhatIsUnacked(w.outbox, w.links[c].lastSent);
    if rows != [] {
      var i :| 0 <= i < |w.store| && w.store[i] == rows[|rows| - 1];
    }
  }

  // ---------- Sending again ----------

  /** What is acknowledged is not fetched, and so is not sent by whoever fetches later. */
  lemma DeliveredIsNeverFetched(w: World, c: nat, e: Event)
    requires Safe(w) && Enabled(w, Fetch(c)) && e.id in w.outbox.delivered
    ensures e !in Next(w, Fetch(c)).links[c].batch
  {
    WaitingIsWhatIsUnacked(w.outbox, w.links[c].lastSent);
  }

  /** Step `j` sends for connection `c` an event which step `i` fetched. */
  ghost predicate SendsOfFetch(steps: seq<Step>, i: nat, j: nat, c: nat) {
    i < j < |steps| && steps[i] == Fetch(c) && steps[j] == Send(c) && forall k :: i < k < j ==> steps[k] != Fetch(c)
  }

  /** Without a fetch a batch only shrinks. */
  lemma BatchShrinks(w: World, s: Step, c: nat)
    requires Enabled(w, s) && s != Fetch(c)
    requires c in Next(w, s).links && Next(w, s).links[c].batch != []
    ensures c in w.links && forall e <- Next(w, s).links[c].batch :: e in w.links[c].batch
  {
  }

  /** What is sent in the end was in the batch all along. */
  lemma {:induction false} InBatchSince(worlds: seq<World>, steps: seq<Step>, i: nat, k: nat, j: nat, c: nat)
    requires IsRun(worlds, steps) && SendsOfFetch(steps, i, j, c) && i < k <= j
    ensures c in worlds[j].links && worlds[j].links[c].batch != []
    ensures c in worlds[k].links && worlds[j].links[c].batch[0] in worlds[k].links[c].batch
    decreases j - k
  {
    assert StepAt(worlds, steps, j);
    if k < j {
      InBatchSince(worlds, steps, i, k + 1, j, c);
      assert StepAt(worlds, steps, k);
      BatchShrinks(worlds[k], steps[k], c);
    }
  }

  /** Step `t` heard an acknowledgement that reaches the event. */
  ghost predicate Acked(steps: seq<Step>, t: int, id: nat) {
    0 <= t < |steps| && steps[t].Ack? && id <= steps[t].upTo
  }

  ghost predicate Recorded(steps: seq<Step>, t: int, id: nat) { Acked(steps, t, id) && steps[t].recorded }

  lemma MarkedInOneStep(w: World, s: Step, e: Event)
    requires Enabled(w, s) && e in w.outbox.rows
    ensures e.id in Next(w, s).outbox.delivered <==>
            e.id in w.outbox.delivered || (s.Ack? && e.id <= s.upTo && s.recorded)
  {
  }

  lemma QueuedInOneStep(w: World, s: Step, e: Event)
    requires Safe(w) && Enabled(w, s) && e in Next(w, s).outbox.rows && e !in w.outbox.rows
    ensures s.Queue? && e.id > NewestId(w.outbox.rows, 0) && e.id !in Next(w, s).outbox.delivered
  {
    NewerKeepsIncreasing(w.outbox.rows, e);
  }

  /** What an acknowledgement reaches was stored, and so queued. */
  lemma AckedInOneStep(w: World, s: Step)
    requires Safe(w) && Enabled(w, s)
    ensures NewestId(w.outbox.rows, 0) <= NewestId(Next(w, s).outbox.rows, 0)
    ensures s.Ack? ==> s.upTo <= NewestId(w.outbox.rows, 0)
  {
    if s.Queue? {
      NewerKeepsIncreasing(w.outbox.rows, s.event);
    }
    StoredIdsAreOld(w.outbox.rows, w.store);
  }

  lemma StoredIdsAreOld(rows: seq<Event>, store: seq<Event>)
    requires Increasing(rows) && store <= rows
    ensures NewestId(store, 0) <= NewestId(rows, 0)
  {
    if store != [] {
      assert rows[|store| - 1] == store[|store| - 1];
    }
  }

  lemma AckedInRun(worlds: seq<World>, steps: seq<Step>, i: nat)
    requires IsRun(worlds, steps) && i < |steps|
    ensures NewestId(worlds[i].outbox.rows, 0) <= NewestId(worlds[i + 1].outbox.rows, 0)
    ensures steps[i].Ack? ==> steps[i].upTo <= NewestId(worlds[i].outbox.rows, 0)
  {
    RunIsSafe(worlds, steps, i);
    assert StepAt(worlds, steps, i);
    AckedInOneStep(worlds[i], steps[i]);
  }

  /** What was never queued was never acknowledged. */
  lemma {:induction false} NothingAckedYet(worlds: seq<World>, steps: seq<Step>, k: nat, id: nat)
    requires IsRun(worlds, steps) && k <= |steps| && id > NewestId(worlds[k].outbox.rows, 0)
    ensures forall t :: 0 <= t < k ==> !Acked(steps, t, id)
    decreases k
  {
    if k > 0 {
      AckedInRun(worlds, steps, k - 1);
      NothingAckedYet(worlds, steps, k - 1, id);
    }
  }

  lemma QueuedInRun(worlds: seq<World>, steps: seq<Step>, i: nat, e: Event)
    requires IsRun(worlds, steps) && i < |steps| && e in worlds[i + 1].outbox.rows && e !in worlds[i].outbox.rows
    ensures steps[i].Queue? && e.id > NewestId(worlds[i].outbox.rows, 0) && e.id !in worlds[i + 1].outbox.delivered
  {
    RunIsSafe(worlds, steps, i);
    assert StepAt(worlds, steps, i);
    QueuedInOneStep(worlds[i], steps[i], e);
  }

  /** An event is marked by exactly the recorded acknowledgements that reach it. */
  lemma {:induction false} MarkedIff(worlds: seq<World>, steps: seq<Step>, k: nat, e: Event)
    requires IsRun(worlds, steps) && k <= |steps| && e in worlds[k].outbox.rows
    ensures e.id in worlds[k].outbox.delivered <==> exists t :: 0 <= t < k && Recorded(steps, t, e.id)
    decreases k
  {
    if k > 0 {
      assert StepAt(worlds, steps, k - 1);
      if e in worlds[k - 1].outbox.rows {
        MarkedIff(worlds, steps, k - 1, e);
        MarkedInOneStep(worlds[k - 1], steps[k - 1], e);
        assert Recorded(steps, k - 1, e.id) <==>
               steps[k - 1].Ack? && e.id <= steps[k - 1].upTo && steps[k - 1].recorded;
      } else {
        QueuedInRun(worlds, steps, k - 1, e);
        NothingAckedYet(worlds, steps, k - 1, e.id);
      }
    }
  }

  /** Exactly when a connection that has not sent an event yet will fetch it, and so send it, in its turn:
      no acknowledgement of it that was recorded came before. */
  lemma WaitsIff(worlds: seq<World>, steps: seq<Step>, k: nat, c: nat, e: Event)
    requires IsRun(worlds, steps) && k <= |steps| && c in worlds[k].links
    requires e in worlds[k].outbox.rows && e.id > worlds[k].links[c].lastSent
    ensures e in Waiting(worlds[k].outbox, worlds[k].links[c].lastSent) <==>
            !exists t :: 0 <= t < k && Recorded(steps, t, e.id)
  {
    RunIsSafe(worlds, steps, k);
    WaitingIsWhatIsUnacked(worlds[k].outbox, worlds[k].links[c].lastSent);
    MarkedIff(worlds, steps, k, e);
  }

  lemma FetchedIsUnacked(worlds: seq<World>, steps: seq<Step>, i: nat, c: nat, e: Event)
    requires IsRun(worlds, steps) && i < |steps| && steps[i] == Fetch(c)
    requires c in worlds[i + 1].links && e in worlds[i + 1].links[c].batch
    ensures e in worlds[i + 1].outbox.rows && e.id !in worlds[i + 1].outbox.delivered
  {
    RunIsSafe(worlds, steps, i);
    assert StepAt(worlds, steps, i);
    WaitingIsWhatIsUnacked(worlds[i].outbox, worlds[i].links[c].lastSent);
  }

  /** Exactly when an event is sent although an acknowledgement of it was heard before: one was heard and
      not recorded before the connection fetched it, or one came in on another connection after that. No
      recorded one ever came before the fetch. */
  lemma SentAgainIff(worlds: seq<World>, steps: seq<Step>, i: nat, j: nat, c: nat)
    requires IsRun(worlds, steps) && SendsOfFetch(steps, i, j, c)
    ensures c in worlds[j].links && worlds[j].links[c].batch != []
    ensures var id := worlds[j].links[c].batch[0].id;
            && (forall t :: 0 <= t < i ==> !Recorded(steps, t, id))
            && ((exists t :: 0 <= t < j && Acked(steps, t, id)) <==>
                (exists t :: 0 <= t < i && Acked(steps, t, id) && !steps[t].recorded) ||
                (exists t :: i < t < j && Acked(steps, t, id) && steps[t].link != c))
  {
    InBatchSince(worlds, steps, i, j, j, c);
    InBatchSince(worlds, steps, i, i + 1, j, c);
    var e := worlds[j].links[c].batch[0];
    FetchedIsUnacked(worlds, steps, i, c, e);
    MarkedIff(worlds, steps, i + 1, e);
    forall t | i < t < j && Acked(steps, t, e.id) ensures steps[t].link != c {
      InBatchSince(worlds, steps, i, t, j, c);
      assert StepAt(worlds, steps, t);
    }
    forall t | 0 <= t < i && Acked(steps, t, e.id) ensures !Recorded(steps, t, e.id) {
      assert t < i + 1;
    }
  }

  /** Between its fetch and its sending no other connection is there. */
  ghost predicate Alone(worlds: seq<World>, i: nat, j: nat, c: nat)
    requires j < |worlds|
  {
    forall t :: i < t < j ==> worlds[t].links.Keys == {c}
  }

  /** With one connection at a time an event is sent again exactly when an acknowledgement of it was heard
      before the fetch and could not be recorded. */
  lemma AloneSendsAgainIff(worlds: seq<World>, steps: seq<Step>, i: nat, j: nat, c: nat)
    requires IsRun(worlds, steps) && SendsOfFetch(steps, i, j, c) && Alone(worlds, i, j, c)
    ensures c in worlds[j].links && worlds[j].links[c].batch != []
    ensures var id := worlds[j].links[c].batch[0].id;
            (exists t :: 0 <= t < j && Acked(steps, t, id)) <==>
            (exists t :: 0 <= t < i && Acked(steps, t, id) && !steps[t].recorded)
  {
    forall t | i < t < j && steps[t].Ack? ensures steps[t].link == c {
      assert StepAt(worlds, steps, t);
      assert steps[t].link in worlds[t].links.Keys;
    }
    SentAgainIff(worlds, steps, i, j, c);
  }

  /** A hub with one connection at a time that records what it hears never sends what was acknowledged. */
  lemma AloneNeverSendsAgain(worlds: seq<World>, steps: seq<Step>, i: nat, j: nat, c: nat)
    requires IsRun(worlds, steps) && SendsOfFetch(steps, i, j, c) && Alone(worlds, i, j, c)
    requires forall t :: 0 <= t < i && steps[t].Ack? ==> steps[t].recorded
    ensures c in worlds[j].links && worlds[j].links[c].batch != []
    ensures forall t :: 0 <= t < j ==> !Acked(steps, t, worlds[j].links[c].batch[0].id)
  {
    AloneSendsAgainIff(worlds, steps, i, j, c);
  }

  lemma OneMoreStep(worlds: seq<World>, steps: seq<Step>, s: Step) returns (worlds': seq<World>, steps': seq<Step>)
    requires IsRun(worlds, steps) && Enabled(worlds[|steps|], s)
    ensures IsRun(worlds', steps') && steps' == steps + [s]
    ensures worlds' == worlds + [Next(worlds[|steps|], s)]
  {
    worlds', steps' := worlds + [Next(worlds[|steps|], s)], steps + [s];
    forall i | 0 <= i < |steps'| ensures StepAt(worlds', steps', i) {
      if i < |steps| {
        assert StepAt(worlds, steps, i);
      }
    }
  }

  /** Two connections that both fetched an event. */
  lemma BothFetched(e: Event) returns (worlds: seq<World>, steps: seq<Step>)
    requires e.id > 0
    ensures IsRun(worlds, steps) && |steps| == 5 && steps[3] == Fetch(0) && steps[4] == Fetch(1)
    ensures worlds[5] == World(Outbox([e], {}), map[0 := Link(0, [e], []), 1 := Link(0, [e], [])], [])
  {
    worlds, steps := [NOTHING_YET], [];
    worlds, steps := OneMoreStep(worlds, steps, Queue(e));
    worlds, steps := OneMoreStep(worlds, steps, Connect(0));
    worlds, steps := OneMoreStep(worlds, steps, Connect(1));
    OneWaits(e);
    worlds, steps := OneMoreStep(worlds, steps, Fetch(0));
    worlds, steps := OneMoreStep(worlds, steps, Fetch(1));
  }

  lemma OneWaits(e: Event)
    requires e.id > 0
    ensures Unacked(Outbox([e], {}), 0, BATCH) == [e]
  {
    var o := Outbox([e], {});
    assert o.rows[..0] == [];
    assert Waiting(o.(rows := []), 0) == [];
  }

  /** With two connections an event can be sent that was acknowledged already. */
  lemma OverlapSendsAgain(e: Event) returns (worlds: seq<World>, steps: seq<Step>)
    requires e.id > 0
    ensures IsRun(worlds, steps) && |steps| == 9 && SendsOfFetch(steps, 3, 8, 0)
    ensures 0 in worlds[8].links && worlds[8].links[0].batch == [e] && Recorded(steps, 7, e.id)
  {
    worlds, steps := BothFetched(e);
    worlds, steps := OneMoreStep(worlds, steps, Send(1));
    worlds, steps := OneMoreStep(worlds, steps, Arrive(1));
    worlds, steps := OneMoreStep(worlds, steps, Ack(1, e.id, true));
    worlds, steps := OneMoreStep(worlds, steps, Send(0));
  }

  /** An event sent, stored and acknowledged, and the acknowledgement not recorded. */
  lemma HeardUnrecorded(e: Event) returns (worlds: seq<World>, steps: seq<Step>)
    requires e.id > 0
    ensures IsRun(worlds, steps)
    ensures steps == [Queue(e), Connect(0), Fetch(0), Send(0), Arrive(0), Ack(0, e.id, false)]
    ensures worlds[6] == World(Outbox([e], {}), map[0 := Link(e.id, [], [])], [e])
  {
    worlds, steps := [NOTHING_YET], [];
    worlds, steps := OneMoreStep(worlds, steps, Queue(e));
    worlds, steps := OneMoreStep(worlds, steps, Connect(0));
    OneWaits(e);
    worlds, steps := OneMoreStep(worlds, steps, Fetch(0));
    worlds, steps := OneMoreStep(worlds, steps, Send(0));
    worlds, steps := OneMoreStep(worlds, steps, Arrive(0));
    worlds, steps := OneMoreStep(worlds, steps, Ack(0, e.id, false));
  }

  /** With one connection at a time, too, when the acknowledgement could not be recorded. */
  lemma UnrecordedSendsAgain(e: Event) returns (worlds: seq<World>, steps: seq<Step>)
    requires e.id > 0
    ensures IsRun(worlds, steps)
    ensures steps == [Queue(e), Connect(0), Fetch(0), Send(0), Arrive(0), Ack(0, e.id, false)]
                     + [Drop(0), Connect(1), Fetch(1), Send(1)]
    ensures worlds[9].links == map[1 := Link(0, [e], [])]
  {
    worlds, steps := HeardUnrecorded(e);
    worlds, steps := OneMoreStep(worlds, steps, Drop(0));
    worlds, steps := OneMoreStep(worlds, steps, Connect(1));
    OneWaits(e);
    worlds, steps := OneMoreStep(worlds, steps, Fetch(1));
    worlds, steps := OneMoreStep(worlds, steps, Send(1));
  }
}
