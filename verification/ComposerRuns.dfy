/** The composer's promises over whole runs, with any number of calls at once, and the table itself. */
module ComposerRuns {
  import opened Wrappers
  import opened Composer
  import opened ComposerInvariant

  ghost predicate IsRun(hubs: seq<Hub>, steps: seq<Step>) {
    && |hubs| == |steps| + 1
    && hubs[0] == NEW_HUB
    && forall i :: 0 <= i < |steps| ==> StepAt(hubs, steps, i)
  }

  ghost predicate StepAt(hubs: seq<Hub>, steps: seq<Step>, i: int)
    requires |hubs| == |steps| + 1 && 0 <= i < |steps|
  {
    Enabled(hubs[i], steps[i]) && hubs[i + 1] == Next(hubs[i], steps[i])
  }

  lemma {:induction false} RunIsSafe(hubs: seq<Hub>, steps: seq<Step>, n: nat)
    requires IsRun(hubs, steps) && n <= |steps|
    ensures Safe(hubs[n])
    decreases n
  {
    if n > 0 {
      RunIsSafe(hubs, steps, n - 1);
      assert StepAt(hubs, steps, n - 1);
      StepKeepsSafe(hubs[n - 1], steps[n - 1]);
    }
  }

  lemma StepOfRun(hubs: seq<Hub>, steps: seq<Step>, i: nat)
    requires IsRun(hubs, steps) && i < |steps|
    ensures Safe(hubs[i]) && Enabled(hubs[i], steps[i]) && hubs[i + 1] == Next(hubs[i], steps[i])
  {
    RunIsSafe(hubs, steps, i);
    assert StepAt(hubs, steps, i);
  }

  /** Whatever fails and whenever the hub crashes: an id is dispatched at most once per user, machine
      and terminal, so never with two contents. */
  lemma DispatchedAtMostOnce(hubs: seq<Hub>, steps: seq<Step>, n: nat, i: nat, j: nat)
    requires IsRun(hubs, steps) && n <= |steps|
    requires i < |hubs[n].sends| && j < |hubs[n].sends| && hubs[n].sends[i].slot == hubs[n].sends[j].slot
    ensures i == j
  {
    RunIsSafe(hubs, steps, n);
  }

  /** Every two answers to the same content agree, unless one is Unknown; and only one content of an
      id ever gets another answer than Unknown. */
  lemma AnswersAgree(hubs: seq<Hub>, steps: seq<Step>, n: nat, a: Reply, b: Reply)
    requires IsRun(hubs, steps) && n <= |steps| && a in hubs[n].replies && b in hubs[n].replies
    requires a.slot == b.slot && a.message.problem == None && b.message.problem == None
    requires a.receipt.status != Unknown && b.receipt.status != Unknown
    ensures a.message == b.message && a.receipt == b.receipt
  {
    RunIsSafe(hubs, steps, n);
    assert ReplyOk(hubs[n].fates, a) && ReplyOk(hubs[n].fates, b);
  }

  /** An invalid message is always refused, and never reserved nor dispatched. */
  lemma InvalidIsRefused(hubs: seq<Hub>, steps: seq<Step>, n: nat, m: Message)
    requires IsRun(hubs, steps) && n <= |steps| && m.problem.Some?
    ensures forall r <- hubs[n].replies :: r.message == m ==> r.receipt == Receipt(Failed, m.problem.value)
    ensures forall s <- hubs[n].sends :: s.message != m
    ensures forall slot <- hubs[n].rows :: hubs[n].rows[slot].digest != m
  {
    RunIsSafe(hubs, steps, n);
    forall r <- hubs[n].replies | r.message == m ensures r.receipt == Receipt(Failed, m.problem.value) {
      assert ReplyOk(hubs[n].fates, r);
    }
    OnlyValidIsReserved(hubs, steps, n);
    forall slot <- hubs[n].rows ensures hubs[n].rows[slot].digest != m {
      assert RowOk(hubs[n], slot);
    }
  }

  lemma {:induction false} OnlyValidIsReserved(hubs: seq<Hub>, steps: seq<Step>, n: nat)
    requires IsRun(hubs, steps) && n <= |steps|
    ensures forall slot <- hubs[n].fates :: hubs[n].fates[slot].content.problem == None
    decreases n
  {
    if n > 0 {
      OnlyValidIsReserved(hubs, steps, n - 1);
      StepOfRun(hubs, steps, n - 1);
      var h, s := hubs[n - 1], steps[n - 1];
      if !s.Crash? && s.task in h.tasks {
        assert TaskOk(h, s.task);
      }
    }
  }

  lemma {:induction false} RunSettles(hubs: seq<Hub>, steps: seq<Step>, m: nat, n: nat)
    requires IsRun(hubs, steps) && m <= n <= |steps|
    ensures Settled(hubs[m].fates, hubs[n].fates)
    decreases n
  {
    if m < n {
      RunSettles(hubs, steps, m, n - 1);
      StepOfRun(hubs, steps, n - 1);
      StepKeepsSafe(hubs[n - 1], steps[n - 1]);
    }
  }

  /** What was refused because nobody had control, or by an old node, is never dispatched later, not
      even when it is submitted again with control. */
  lemma RefusedStaysUnsent(hubs: seq<Hub>, steps: seq<Step>, m: nat, n: nat, slot: Slot)
    requires IsRun(hubs, steps) && m <= n <= |steps| && slot in hubs[m].fates
    requires hubs[m].fates[slot].gate.Some? && hubs[m].fates[slot].gate != Some(Open)
    ensures forall s <- hubs[n].sends :: s.slot != slot
  {
    RunSettles(hubs, steps, m, n);
    RunIsSafe(hubs, steps, n);
  }

  /** Nobody is left to dispatch the reserved message or to hear what became of it. */
  ghost predicate Abandoned(h: Hub, slot: Slot) {
    && slot in h.rows && slot in h.fates && h.fates[slot].final == None
    && forall t <- h.tasks :: h.tasks[t].slot == slot ==> !h.tasks[t].stage.Reserved? && !h.tasks[t].stage.Waiting?
  }

  lemma StepKeepsAbandoned(h: Hub, s: Step, slot: Slot)
    requires Safe(h) && Enabled(h, s) && Abandoned(h, slot)
    ensures Abandoned(Next(h, s), slot)
    ensures forall a :: NothingMoreFor(a, h.sends, slot) ==> NothingMoreFor(a, Next(h, s).sends, slot)
  {
    if !s.Crash? && s.task in h.tasks {
      assert TaskOk(h, s.task);
      if s.Decide? && s.gate == Open {
        var x := Sent(h.tasks[s.task].slot, h.tasks[s.task].message);
        assert Next(h, s).sends == h.sends + [x];
        forall a | NothingMoreFor(a, h.sends, slot) ensures NothingMoreFor(a, Next(h, s).sends, slot) {
          NothingMoreStill(a, h.sends, x, slot);
        }
      }
    }
  }

  /** `b` is `a` with nothing for `slot` added. */
  ghost predicate NothingMoreFor(a: seq<Sent>, b: seq<Sent>, slot: Slot) {
    a <= b && forall s <- b[|a|..] :: s.slot != slot
  }

  lemma NothingMoreStill(a: seq<Sent>, b: seq<Sent>, x: Sent, slot: Slot)
    requires NothingMoreFor(a, b, slot) && x.slot != slot
    ensures NothingMoreFor(a, b + [x], slot)
  {
    assert (b + [x])[|a|..] == b[|a|..] + [x];
  }

  lemma AbandonedOneMore(hubs: seq<Hub>, steps: seq<Step>, i: nat, slot: Slot)
    requires IsRun(hubs, steps) && i < |steps| && Abandoned(hubs[i], slot)
    ensures Abandoned(hubs[i + 1], slot)
    ensures forall a :: NothingMoreFor(a, hubs[i].sends, slot) ==> NothingMoreFor(a, hubs[i + 1].sends, slot)
  {
    StepOfRun(hubs, steps, i);
    StepKeepsAbandoned(hubs[i], steps[i], slot);
  }

  /** A reservation the hub lost track of (it crashed before the outcome) is never dispatched again,
      and every answer about it stays Unknown. */
  lemma {:induction false} AbandonedStaysUnknown(hubs: seq<Hub>, steps: seq<Step>, m: nat, n: nat, slot: Slot)
    requires IsRun(hubs, steps) && m <= n <= |steps| && Abandoned(hubs[m], slot)
    ensures Abandoned(hubs[n], slot)
    ensures NothingMoreFor(hubs[m].sends, hubs[n].sends, slot)
    ensures forall r <- hubs[n].replies :: r.slot == slot && r.message.problem == None ==> r.receipt.status == Unknown
    decreases n
  {
    RunIsSafe(hubs, steps, n);
    if m < n {
      AbandonedStaysUnknown(hubs, steps, m, n - 1, slot);
      AbandonedOneMore(hubs, steps, n - 1, slot);
    }
    UnknownWhileAbandoned(hubs[n], slot);
  }

  lemma UnknownWhileAbandoned(h: Hub, slot: Slot)
    requires Safe(h) && Abandoned(h, slot)
    ensures forall r <- h.replies :: r.slot == slot && r.message.problem == None ==> r.receipt.status == Unknown
  {
    forall r <- h.replies | r.slot == slot && r.message.problem == None ensures r.receipt.status == Unknown {
      assert ReplyOk(h.fates, r);
    }
  }

  /** How the outside treats one uninterrupted call. */
  datatype Outside = Outside(inserts: bool, selects: bool, error: string, gate: Gate, outcome: Receipt, saves: bool)

  /** A reserved call served to its end. */
  ghost function Finished(h: Hub, t: nat, o: Outside): Hub
    requires t in h.tasks && h.tasks[t].stage == Reserved
  {
    var decided := Next(h, Decide(t, o.gate));
    var heard := if o.gate == Open then Next(decided, Hear(t, o.outcome)) else decided;
    Answered(Saved(heard, t, o.saves), t)
  }

  lemma FinishedIs(h: Hub, t: nat, slot: Slot, m: Message, o: Outside)
    requires t in h.tasks && h.tasks[t] == Task(slot, m, Reserved) && slot in h.rows
    ensures var receipt := match o.gate case NoControl => NO_CONTROL case OldNode => OLD_NODE case Open => o.outcome;
            var f := Finished(h, t, o);
            && f.rows == (if o.saves then Updated(h.rows, slot, receipt) else h.rows)
            && f.sends == (if o.gate == Open then h.sends + [Sent(slot, m)] else h.sends)
            && f.replies == h.replies + [Reply(slot, m, receipt)]
  {
  }

  /** One call served from start to end with nothing in between. */
  ghost function Served(h: Hub, t: nat, slot: Slot, m: Message, o: Outside): Hub
    requires Enabled(h, Submit(t, slot, m))
  {
    var submitted := Next(h, Submit(t, slot, m));
    if m.problem.Some? then submitted
    else
      var inserted := Next(submitted, Insert(t, o.inserts, o.error));
      if inserted.tasks[t].stage.Replying? then Answered(inserted, t)
      else if inserted.tasks[t].stage == Reading then Answered(Next(inserted, Read(t, o.selects, o.error)), t)
      else Finished(inserted, t, o)
  }

  /** What a call leaves behind: the rows, what went out, and the answer. */
  datatype Outcome = Outcome(rows: map<Slot, Row>, sends: seq<Sent>, receipt: Receipt)

  function Submitted(rows: map<Slot, Row>, sends: seq<Sent>, slot: Slot, m: Message, o: Outside): Outcome {
    if m.problem.Some? then Outcome(rows, sends, Receipt(Failed, m.problem.value))
    else if !o.inserts then Outcome(rows, sends, Receipt(Unknown, o.error))
    else if slot in rows then
      Outcome(rows, sends, if o.selects then Stored(rows, slot, m) else Receipt(Unknown, o.error))
    else
      var receipt := match o.gate case NoControl => NO_CONTROL case OldNode => OLD_NODE case Open => o.outcome;
      Outcome(rows[slot := Row(m, if o.saves then receipt else PENDING)],
              if o.gate == Open then sends + [Sent(slot, m)] else sends, receipt)
  }

  lemma ServedNew(h: Hub, t: nat, slot: Slot, m: Message, o: Outside)
    requires Enabled(h, Submit(t, slot, m)) && m.problem == None && o.inserts && slot !in h.rows
    ensures var s := Served(h, t, slot, m, o);
            var r := Submitted(h.rows, h.sends, slot, m, o);
            s.rows == r.rows && s.sends == r.sends && s.replies == h.replies + [Reply(slot, m, r.receipt)]
  {
    var inserted := Inserted(Next(h, Submit(t, slot, m)), t);
    assert inserted.tasks[t] == Task(slot, m, Reserved);
    FinishedIs(inserted, t, slot, m, o);
    assert Served(h, t, slot, m, o) == Finished(inserted, t, o);
  }

  /** The one-piece `Receipts.Submit` does what its steps do, whatever other calls are under way. */
  lemma SubmittedIsItsSteps(h: Hub, t: nat, slot: Slot, m: Message, o: Outside)
    requires Enabled(h, Submit(t, slot, m))
    ensures var s := Served(h, t, slot, m, o);
            var r := Submitted(h.rows, h.sends, slot, m, o);
            s.rows == r.rows && s.sends == r.sends && s.replies == h.replies + [Reply(slot, m, r.receipt)]
  {
    if m.problem == None && o.inserts && slot !in h.rows {
      ServedNew(h, t, slot, m, o);
    } else if m.problem == None {
      assert Next(h, Submit(t, slot, m)).tasks[t] == Task(slot, m, Reserving);
    }
  }

  /** The table of receipts, and what went out to the machines. */
  class Receipts {
    var rows: map<Slot, Row>
    var sends: seq<Sent>

    constructor ()
      ensures rows == map[] && sends == []
    {
      rows, sends := map[], [];
    }

    /** None: reserved. */
    method Reserve(slot: Slot, m: Message, inserts: bool, selects: bool, error: string)
      returns (answer: Option<Receipt>)
      modifies this
      ensures sends == old(sends)
      ensures answer == None <==> inserts && slot !in old(rows)
      ensures rows == if answer == None then old(rows)[slot := Row(m, PENDING)] else old(rows)
      ensures answer.Some? ==>
                answer.value == if !inserts || !selects then Receipt(Unknown, error) else Stored(rows, slot, m)
    {
      if !inserts {
        return Some(Receipt(Unknown, error));
      }
      if slot !in rows {
        rows := rows[slot := Row(m, PENDING)];
        return None;
      }
      if !selects {
        return Some(Receipt(Unknown, error));
      }
      if rows[slot].digest == m {
        return Some(rows[slot].receipt);
      }
      return Some(OTHER_CONTENT);
    }

    method Submit(slot: Slot, m: Message, o: Outside) returns (receipt: Receipt)
      modifies this
      ensures Outcome(rows, sends, receipt) == Submitted(old(rows), old(sends), slot, m, o)
    {
      if m.problem.Some? {
        return Receipt(Failed, m.problem.value);
      }
      var answer := Reserve(slot, m, o.inserts, o.selects, o.error);
      if answer.Some? {
        return answer.value;
      }
      match o.gate {
        case NoControl => receipt := NO_CONTROL;
        case OldNode => receipt := OLD_NODE;
        case Open =>
          sends := sends + [Sent(slot, m)];
          receipt := o.outcome;
      }
      if o.saves {
        rows := Updated(rows, slot, receipt);
      }
    }
  }
}
