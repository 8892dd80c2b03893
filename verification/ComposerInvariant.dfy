/** What every step of the composer keeps. */
module ComposerInvariant {
  import opened Wrappers
  import opened Composer

  /** A row is what its reservation says, and its receipt is pending or final. */
  ghost predicate RowOk(h: Hub, slot: Slot)
    requires slot in h.rows
  {
    && slot in h.fates
    && h.rows[slot].digest == h.fates[slot].content
    && (h.rows[slot].receipt == PENDING || h.fates[slot].final == Some(h.rows[slot].receipt))
  }

  /** Unknown, or the final receipt of the reservation for this very content. */
  ghost predicate Truthful(fates: map<Slot, Fate>, slot: Slot, m: Message, r: Receipt) {
    r.status == Unknown || (slot in fates && fates[slot].content == m && fates[slot].final == Some(r))
  }

  ghost predicate TaskOk(h: Hub, t: nat)
    requires t in h.tasks
  {
    var task := h.tasks[t];
    && task.message.problem == None
    && (task.stage.Replying? ==> Truthful(h.fates, task.slot, task.message, task.stage.receipt))
    && (task.stage.Reserved? || task.stage.Waiting? || task.stage.Saving? ==>
          && task.slot in h.rows && task.slot in h.fates
          && h.fates[task.slot].owner == t && h.fates[task.slot].content == task.message)
    && (task.stage.Reserved? ==> h.fates[task.slot].gate == None && h.fates[task.slot].final == None)
    && (task.stage.Waiting? ==> h.fates[task.slot].gate == Some(Open) && h.fates[task.slot].final == None)
    && (task.stage.Saving? ==> h.fates[task.slot].final == Some(task.stage.receipt))
  }

  /** Dispatched at most once, only what the gate let through, and only the reserved content. */
  ghost predicate SendsOk(sends: seq<Sent>, fates: map<Slot, Fate>) {
    && (forall i, j :: 0 <= i < j < |sends| ==> sends[i].slot != sends[j].slot)
    && (forall s <- sends :: s.slot in fates && fates[s.slot].gate == Some(Open) && fates[s.slot].content == s.message)
  }

  ghost predicate ReplyOk(fates: map<Slot, Fate>, r: Reply) {
    if r.message.problem.Some? then r.receipt == Receipt(Failed, r.message.problem.value)
    else Truthful(fates, r.slot, r.message, r.receipt)
  }

  ghost predicate Safe(h: Hub) {
    && (forall slot <- h.rows :: RowOk(h, slot))
    && (forall slot <- h.fates :: slot in h.rows)
    && (forall t <- h.tasks :: TaskOk(h, t))
    && SendsOk(h.sends, h.fates)
    && (forall r <- h.replies :: ReplyOk(h.fates, r))
  }

  /** What became of a reservation never changes afterwards. */
  ghost predicate Settled(f: map<Slot, Fate>, g: map<Slot, Fate>) {
    forall slot <- f ::
      && slot in g && g[slot].owner == f[slot].owner && g[slot].content == f[slot].content
      && (f[slot].gate.Some? ==> g[slot].gate == f[slot].gate)
      && (f[slot].final.Some? ==> g[slot].final == f[slot].final)
  }

  lemma SettledKeepsReplies(f: map<Slot, Fate>, g: map<Slot, Fate>, replies: seq<Reply>)
    requires Settled(f, g) && forall r <- replies :: ReplyOk(f, r)
    ensures forall r <- replies :: ReplyOk(g, r)
  {
  }

  /** A call without a reservation goes on. */
  lemma MovedKeepsSafe(h: Hub, t: nat, stage: Stage)
    requires Safe(h) && t in h.tasks
    requires stage == Reading ||
             (stage.Replying? && Truthful(h.fates, h.tasks[t].slot, h.tasks[t].message, stage.receipt))
    ensures Safe(Moved(h, t, stage))
  {
    var m := Moved(h, t, stage);
    assert TaskOk(h, t);
    forall slot <- m.rows ensures RowOk(m, slot) {
      assert RowOk(h, slot);
    }
    forall u <- m.tasks ensures TaskOk(m, u) {
      if u != t {
        assert TaskOk(h, u);
      }
    }
  }

  lemma InsertedKeepsSafe(h: Hub, t: nat)
    requires Safe(h) && t in h.tasks && h.tasks[t].stage == Reserving
    ensures Safe(Inserted(h, t)) && Settled(h.fates, Inserted(h, t).fates)
  {
    var m := Inserted(h, t);
    assert TaskOk(h, t);
    if h.tasks[t].slot in h.rows {
      MovedKeepsSafe(h, t, Reading);
    } else {
      assert Settled(h.fates, m.fates);
      forall slot <- m.rows ensures RowOk(m, slot) {
        assert slot in h.rows ==> RowOk(h, slot);
      }
      forall u <- m.tasks ensures TaskOk(m, u) {
        if u != t {
          assert TaskOk(h, u);
        }
      }
      SettledKeepsReplies(h.fates, m.fates, h.replies);
    }
  }

  /** The one call that owns a reservation decides its fate, once. */
  lemma RecordedKeepsSafe(h: Hub, t: nat, stage: Stage, fate: Fate)
    requires Safe(h) && t in h.tasks && (h.tasks[t].stage == Reserved || h.tasks[t].stage == Waiting)
    requires var was := FateOf(h, t);
             && fate.owner == was.owner && fate.content == was.content
             && (was.gate.Some? ==> fate.gate == was.gate)
    requires (stage == Waiting && fate.gate == Some(Open) && fate.final == None) ||
             (stage.Saving? && fate.final == Some(stage.receipt))
    ensures Safe(Recorded(h, t, stage, fate)) && Settled(h.fates, Recorded(h, t, stage, fate).fates)
  {
    var m := Recorded(h, t, stage, fate);
    assert TaskOk(h, t);
    assert Settled(h.fates, m.fates);
    forall slot <- m.rows ensures RowOk(m, slot) {
      assert RowOk(h, slot);
    }
    forall u <- m.tasks ensures TaskOk(m, u) {
      assert TaskOk(h, u);
    }
    SettledKeepsReplies(h.fates, m.fates, h.replies);
  }

  lemma DispatchedKeepsSafe(h: Hub, t: nat)
    requires Safe(h) && t in h.tasks && h.tasks[t].stage == Reserved
    ensures Safe(Dispatched(h, t)) && Settled(h.fates, Dispatched(h, t).fates)
  {
    var m := Dispatched(h, t);
    var fate := FateOf(h, t).(gate := Some(Open));
    assert TaskOk(h, t);
    RecordedKeepsSafe(h, t, Waiting, fate);
    forall slot <- m.rows ensures RowOk(m, slot) {
      assert RowOk(Recorded(h, t, Waiting, fate), slot);
    }
    forall u <- m.tasks ensures TaskOk(m, u) {
      assert TaskOk(Recorded(h, t, Waiting, fate), u);
    }
  }

  lemma SavedKeepsSafe(h: Hub, t: nat, ok: bool)
    requires Safe(h) && t in h.tasks && h.tasks[t].stage.Saving?
    ensures Safe(Saved(h, t, ok))
  {
    var m := Saved(h, t, ok);
    assert TaskOk(h, t);
    forall slot <- m.rows ensures RowOk(m, slot) {
      assert RowOk(h, slot);
    }
    forall u <- m.tasks ensures TaskOk(m, u) {
      assert TaskOk(h, u);
    }
  }

  lemma AnsweredKeepsSafe(h: Hub, t: nat)
    requires Safe(h) && t in h.tasks && h.tasks[t].stage.Replying?
    ensures Safe(Answered(h, t))
  {
    var m := Answered(h, t);
    assert TaskOk(h, t);
    forall slot <- m.rows ensures RowOk(m, slot) {
      assert RowOk(h, slot);
    }
    forall u <- m.tasks ensures TaskOk(m, u) {
      assert TaskOk(h, u);
    }
  }

  lemma SubmitKeepsSafe(h: Hub, t: nat, slot: Slot, message: Message)
    requires Safe(h) && Enabled(h, Submit(t, slot, message))
    ensures Safe(Next(h, Submit(t, slot, message)))
  {
    var m := Next(h, Submit(t, slot, message));
    forall slot <- m.rows ensures RowOk(m, slot) {
      assert RowOk(h, slot);
    }
    forall u <- m.tasks ensures TaskOk(m, u) {
      assert u in h.tasks ==> TaskOk(h, u);
    }
  }

  lemma InsertKeepsSafe(h: Hub, t: nat, ok: bool, error: string)
    requires Safe(h) && Enabled(h, Insert(t, ok, error))
    ensures Safe(Next(h, Insert(t, ok, error))) && Settled(h.fates, Next(h, Insert(t, ok, error)).fates)
  {
    if ok {
      InsertedKeepsSafe(h, t);
    } else {
      MovedKeepsSafe(h, t, Replying(Receipt(Unknown, error)));
    }
  }

  lemma ReadKeepsSafe(h: Hub, t: nat, ok: bool, error: string)
    requires Safe(h) && Enabled(h, Read(t, ok, error))
    ensures Safe(Next(h, Read(t, ok, error)))
  {
    var task := h.tasks[t];
    assert task.slot in h.rows ==> RowOk(h, task.slot);
    MovedKeepsSafe(h, t, Replying(if ok then Stored(h.rows, task.slot, task.message) else Receipt(Unknown, error)));
  }

  lemma DecideKeepsSafe(h: Hub, t: nat, gate: Gate)
    requires Safe(h) && Enabled(h, Decide(t, gate))
    ensures Safe(Next(h, Decide(t, gate))) && Settled(h.fates, Next(h, Decide(t, gate)).fates)
  {
    assert TaskOk(h, t);
    var fate := FateOf(h, t);
    match gate
    case NoControl => RecordedKeepsSafe(h, t, Saving(NO_CONTROL), fate.(gate := Some(gate), final := Some(NO_CONTROL)));
    case OldNode => RecordedKeepsSafe(h, t, Saving(OLD_NODE), fate.(gate := Some(gate), final := Some(OLD_NODE)));
    case Open => DispatchedKeepsSafe(h, t);
  }

  lemma HearKeepsSafe(h: Hub, t: nat, outcome: Receipt)
    requires Safe(h) && Enabled(h, Hear(t, outcome))
    ensures Safe(Next(h, Hear(t, outcome))) && Settled(h.fates, Next(h, Hear(t, outcome)).fates)
  {
    RecordedKeepsSafe(h, t, Saving(outcome), FateOf(h, t).(final := Some(outcome)));
  }

  lemma CrashKeepsSafe(h: Hub)
    requires Safe(h)
    ensures Safe(Next(h, Crash))
  {
    var m := Next(h, Crash);
    forall slot <- m.rows ensures RowOk(m, slot) {
      assert RowOk(h, slot);
    }
  }

  /** Every step keeps every promise, and unsettles nothing. */
  lemma StepKeepsSafe(h: Hub, s: Step)
    requires Safe(h) && Enabled(h, s)
    ensures Safe(Next(h, s)) && Settled(h.fates, Next(h, s).fates)
  {
    match s
    case Submit(t, slot, message) => SubmitKeepsSafe(h, t, slot, message);
    case Insert(t, ok, error) => InsertKeepsSafe(h, t, ok, error);
    case Read(t, ok, error) => ReadKeepsSafe(h, t, ok, error);
    case Decide(t, gate) => DecideKeepsSafe(h, t, gate);
    case Hear(t, outcome) => HearKeepsSafe(h, t, outcome);
    case Save(t, ok) => SavedKeepsSafe(h, t, ok);
    case Answer(t) => AnsweredKeepsSafe(h, t);
    case Crash => CrashKeepsSafe(h);
  }
}
