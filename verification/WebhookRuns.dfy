/** What is queued for a bridge over any sequence of updates of a run, interrupted or not, with other
    integrations coming and going. */
module WebhookRuns {
  import opened Wrappers
  import opened Sequences
  import opened Webhooks
  import opened WebhookLog
  import opened WebhookQueue
  import F = WebhookFaults

  /** An update, or the purge of runs that ended a week ago. */
  datatype Move = OnRun(call: Call) | Purge

  ghost predicate MayMove(q: Queue, m: Move) {
    m.Purge? ==> q.saved.Some? && q.saved.value.info.ended
  }

  function Moved(q: Queue, m: Move): Queue {
    match m
    case OnRun(call) => Called(q, call)
    case Purge => q.(saved := None)
  }

  ghost predicate IsRun(queues: seq<Queue>, moves: seq<Move>) {
    && |queues| == |moves| + 1
    && queues[0] == Queue(None, [])
    && forall i :: 0 <= i < |moves| ==> MoveAt(queues, moves, i)
  }

  ghost predicate MoveAt(queues: seq<Queue>, moves: seq<Move>, i: int)
    requires |queues| == |moves| + 1 && 0 <= i < |moves|
  {
    MayMove(queues[i], moves[i]) && queues[i + 1] == Moved(queues[i], moves[i])
  }

  ghost predicate HasHook(m: Move, h: Hook) { m.OnRun? ==> DistinctIds(m.call.hooks) && h in m.call.hooks }

  ghost predicate SameMove(q: Queue, m: Move, op: Op) {
    if m.Purge? then op.Forget? else op.Update? && op.run == m.call.run && (op.fault == Fine <==> Goes(q, m.call))
  }

  /** The same move on the log. */
  lemma MoveOfLog(q: Queue, m: Move, h: Hook) returns (op: Op)
    requires MayMove(q, m) && SeesAll(h) && HasHook(m, h)
    ensures op.Forget? ==> MayForget(LogFor(h, q))
    ensures LogFor(h, Moved(q, m)) == After(LogFor(h, q), op)
    ensures SameMove(q, m, op)
  {
    match m
    case Purge => op := Forget;
    case OnRun(c) =>
      var fault := BridgeGetsTheLog(q, c, h);
      op := Update(c.run, fault);
  }

  /** Whatever happens, what is queued for the bridge is the run's event log under the same updates and
      the same interruptions. */
  lemma {:induction false} QueueIsTheLog(queues: seq<Queue>, moves: seq<Move>, h: Hook, n: nat)
    returns (logs: seq<Log>, ops: seq<Op>)
    requires IsRun(queues, moves) && n <= |moves| && SeesAll(h) && forall m <- moves :: HasHook(m, h)
    ensures F.IsHistory(logs, ops) && |ops| == n
    ensures forall i :: 0 <= i <= n ==> logs[i] == LogFor(h, queues[i])
    ensures forall i :: 0 <= i < n ==> SameMove(queues[i], moves[i], ops[i])
    decreases n
  {
    if n == 0 {
      logs, ops := [EMPTY_LOG], [];
    } else {
      logs, ops := QueueIsTheLog(queues, moves, h, n - 1);
      assert MoveAt(queues, moves, n - 1) && moves[n - 1] in moves;
      var op := MoveOfLog(queues[n - 1], moves[n - 1], h);
      logs, ops := logs + [LogFor(h, queues[n])], ops + [op];
    }
  }

  function RunsOf(moves: seq<Move>): seq<RunInfo>
    requires forall m <- moves :: m.OnRun?
  {
    seq(|moves|, i requires 0 <= i < |moves| => moves[i].call.run)
  }

  lemma OneMoreRun(moves: seq<Move>, n: nat)
    requires 0 < n <= |moves| && forall m <- moves :: m.OnRun?
    ensures moves[n - 1].OnRun?
    ensures AfterAll(RunsOf(moves)[..n]) == AfterUpdate(AfterAll(RunsOf(moves)[..n - 1]), moves[n - 1].call.run, Fine)
  {
    assert moves[n - 1] in moves;
    assert RunsOf(moves)[..n][..n - 1] == RunsOf(moves)[..n - 1];
  }

  /** Without interruption it is the log of `WebhookLog.LogIsWellTold`. */
  lemma {:induction false} UninterruptedQueue(queues: seq<Queue>, moves: seq<Move>, h: Hook, n: nat)
    requires IsRun(queues, moves) && n <= |moves| && SeesAll(h) && forall m <- moves :: m.OnRun? && HasHook(m, h)
    requires forall i :: 0 <= i < |moves| ==> Goes(queues[i], moves[i].call)
    ensures LogFor(h, queues[n]) == AfterAll(RunsOf(moves)[..n])
    decreases n
  {
    if n > 0 {
      UninterruptedQueue(queues, moves, h, n - 1);
      assert MoveAt(queues, moves, n - 1) && moves[n - 1] in moves;
      var op := MoveOfLog(queues[n - 1], moves[n - 1], h);
      OneMoreRun(moves, n);
    }
  }

  lemma ShareOfMove(q: Queue, c: Call, h: Hook, told: seq<Entry>)
    requires Listens(h) && DistinctIds(c.hooks) && h in c.hooks && Goes(q, c) && For(h.id, q.rows) == Share(h, told)
    ensures For(h.id, Called(q, c).rows) == Share(h, AfterUpdate(Log(q.saved, told), c.run, Fine).told)
    ensures Called(q, c).saved == AfterUpdate(Log(q.saved, told), c.run, Fine).saved
  {
    ListeningIs(c.hooks);
    OthersGetTheirShare(c.hooks, h, q.saved, q.rows, told, c.run);
    CutForOne(h.id, Wanted(q, c), c.room);
  }

  /** And any other integration is queued its share of that log. */
  lemma {:induction false} UninterruptedShare(queues: seq<Queue>, moves: seq<Move>, h: Hook, n: nat)
    requires IsRun(queues, moves) && n <= |moves| && Listens(h) && forall m <- moves :: m.OnRun? && HasHook(m, h)
    requires forall i :: 0 <= i < |moves| ==> Goes(queues[i], moves[i].call)
    ensures For(h.id, queues[n].rows) == Share(h, AfterAll(RunsOf(moves)[..n]).told)
    ensures queues[n].saved == AfterAll(RunsOf(moves)[..n]).saved
    decreases n
  {
    if n > 0 {
      UninterruptedShare(queues, moves, h, n - 1);
      assert MoveAt(queues, moves, n - 1) && moves[n - 1] in moves;
      OneMoreRun(moves, n);
      ShareOfMove(queues[n - 1], moves[n - 1].call, h, AfterAll(RunsOf(moves)[..n - 1]).told);
    }
  }

  // ---------- Who gets what ----------

  lemma {:induction false} ShareHas(h: Hook, entries: seq<Entry>, e: Entry)
    ensures e in Share(h, entries) <==> e in entries && Gets(h, e.event)
    decreases |entries|
  {
    if entries != [] {
      ShareHas(h, entries[..|entries| - 1], e);
      assert entries == entries[..|entries| - 1] + [entries[|entries| - 1]];
    }
  }

  /** What a move adds for an integration is a part of its share. */
  lemma AddedIsShare(q: Queue, c: Call, h: Hook)
    requires DistinctIds(c.hooks) && h in c.hooks
    ensures For(h.id, q.rows) <= For(h.id, Called(q, c).rows)
    ensures var added := For(h.id, Called(q, c).rows)[|For(h.id, q.rows)|..];
            if Listens(h) then added <= Share(h, EntriesOf(q.saved, c.run)) else added == []
  {
    var part := AtMost(Wanted(q, c), c.room);
    ListeningIs(c.hooks);
    ForSplits(h.id, q.rows, part);
    CutForOne(h.id, Wanted(q, c), c.room);
    if Listens(h) {
      var i :| 0 <= i < |Listening(c.hooks)| && Listening(c.hooks)[i] == h;
      ForQueue(Listening(c.hooks), EntriesOf(q.saved, c.run), i);
    } else {
      ForIsShares(Listening(c.hooks), EntriesOf(q.saved, c.run), h.id);
      SameIdOnce(c.hooks, h);
      NobodysShares(Listening(c.hooks), EntriesOf(q.saved, c.run), h.id);
    }
  }

  lemma SameIdOnce(hooks: seq<Hook>, h: Hook)
    requires DistinctIds(hooks) && h in hooks && !Listens(h)
    ensures forall i :: 0 <= i < |Listening(hooks)| ==> Listening(hooks)[i].id != h.id
  {
    ListeningIs(hooks);
    var j :| 0 <= j < |hooks| && hooks[j] == h;
    forall i | 0 <= i < |Listening(hooks)| ensures Listening(hooks)[i].id != h.id {
      var l := Listening(hooks)[i];
      assert l in Listening(hooks) && l in hooks;
      var k :| 0 <= k < |hooks| && hooks[k] == l;
    }
  }

  /** Over any run, interrupted or not: a webhook with picks is queued only what it picked, an integration
      that may not see the machine or is not on gets nothing, and a title only goes where titles are shown. */
  lemma {:induction false} OnlyWhatItGets(queues: seq<Queue>, moves: seq<Move>, h: Hook, n: nat)
    requires IsRun(queues, moves) && n <= |moves| && forall m <- moves :: HasHook(m, h)
    ensures !h.allowed || !h.enabled || h.kind == OtherKind ==> For(h.id, queues[n].rows) == []
    ensures forall e <- For(h.id, queues[n].rows) ::
              && (h.kind == Webhook && h.picks != [] ==> e.event in h.picks)
              && (e.event == Title ==> h.titles)
    decreases n
  {
    if n > 0 {
      OnlyWhatItGets(queues, moves, h, n - 1);
      assert MoveAt(queues, moves, n - 1) && moves[n - 1] in moves;
      if moves[n - 1].OnRun? {
        AddedIsGot(queues[n - 1], moves[n - 1].call, h);
        var now := For(h.id, queues[n].rows);
        assert now != [] ==> now[0] in now;
      }
    }
  }

  lemma AddedIsGot(q: Queue, c: Call, h: Hook)
    requires DistinctIds(c.hooks) && h in c.hooks
    ensures For(h.id, q.rows) <= For(h.id, Called(q, c).rows)
    ensures forall e <- For(h.id, Called(q, c).rows)[|For(h.id, q.rows)|..] ::
              && h.allowed && h.enabled && h.kind != OtherKind
              && (h.kind == Webhook && h.picks != [] ==> e.event in h.picks)
              && (e.event == Title ==> h.titles)
    ensures forall e <- For(h.id, Called(q, c).rows) ::
              e in For(h.id, q.rows) || e in For(h.id, Called(q, c).rows)[|For(h.id, q.rows)|..]
  {
    AddedIsShare(q, c, h);
    var before, after := For(h.id, q.rows), For(h.id, Called(q, c).rows);
    assert after == before + after[|before|..];
    forall e <- after[|before|..]
      ensures h.allowed && Listens(h) && Gets(h, e.event)
    {
      ShareHas(h, EntriesOf(q.saved, c.run), e);
      assert e in Share(h, EntriesOf(q.saved, c.run));
    }
  }

  /** And without interruption it is queued everything else the log has. */
  lemma NothingMissing(queues: seq<Queue>, moves: seq<Move>, h: Hook, n: nat, e: Entry)
    requires IsRun(queues, moves) && n <= |moves| && Listens(h) && forall m <- moves :: m.OnRun? && HasHook(m, h)
    requires forall i :: 0 <= i < |moves| ==> Goes(queues[i], moves[i].call)
    requires e in AfterAll(RunsOf(moves)[..n]).told && h.allowed
    requires h.kind == Webhook ==> h.picks == [] || e.event in h.picks
    requires e.event == Title ==> h.titles
    ensures e in For(h.id, queues[n].rows)
  {
    UninterruptedShare(queues, moves, h, n);
    ShareHas(h, AfterAll(RunsOf(moves)[..n]).told, e);
  }

  /** An update nothing stops, with somebody listening. */
  ghost predicate Completes(q: Queue, c: Call) {
    && c.selects && c.saves && |QueueFor(Listening(c.hooks), EntriesOf(q.saved, c.run))| <= c.room
    && exists h <- c.hooks :: h.enabled && h.kind != OtherKind
  }

  /** What the newest update that completed said, unless the run was purged since. */
  ghost function NewestSaved(queues: seq<Queue>, moves: seq<Move>, n: nat): Option<RunInfo>
    requires |queues| == |moves| + 1 && n <= |moves|
  {
    if n == 0 || moves[n - 1].Purge? then None
    else if Completes(queues[n - 1], moves[n - 1].call) then Some(moves[n - 1].call.run)
    else NewestSaved(queues, moves, n - 1)
  }

  lemma SavedStep(q: Queue, c: Call)
    ensures if Completes(q, c) then Called(q, c).saved.Some? && Called(q, c).saved.value.info == c.run
            else Called(q, c).saved == q.saved
    ensures (forall h <- c.hooks :: !h.enabled || h.kind == OtherKind) ==> Called(q, c) == q
  {
    ListeningHas(c.hooks);
    if Listening(c.hooks) != [] {
      var h := Listening(c.hooks)[0];
      assert h in Listening(c.hooks) && h in c.hooks;
    }
  }

  /** Over any run the hub compares with what the newest complete update said: one that is interrupted is as if
      it had not been, and so is one nobody listens to. */
  lemma {:induction false} SavedIsNewest(queues: seq<Queue>, moves: seq<Move>, n: nat)
    requires IsRun(queues, moves) && n <= |moves|
    ensures NewestSaved(queues, moves, n) == if queues[n].saved.Some? then Some(queues[n].saved.value.info) else None
    decreases n
  {
    if n > 0 {
      SavedIsNewest(queues, moves, n - 1);
      assert MoveAt(queues, moves, n - 1);
      if moves[n - 1].OnRun? {
        SavedStep(queues[n - 1], moves[n - 1].call);
      }
    }
  }
}
