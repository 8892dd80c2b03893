/**
  Exactly what the composer stores, dispatches and answers over any run, told from what happened: who
  submitted what, which inserts, reads and updates worked, what the gate said and what the machine answered.
*/
module ComposerAnswers {
  import opened Wrappers
  import opened Composer
  import opened ComposerInvariant
  import opened ComposerRuns

  /** Step `i` is about the call `t`, which is about `slot`. */
  ghost predicate StepOn(hubs: seq<Hub>, steps: seq<Step>, i: int, slot: Slot)
    requires |hubs| == |steps| + 1 && 0 <= i < |steps|
  {
    !steps[i].Crash? && !steps[i].Submit? && steps[i].task in hubs[i].tasks && hubs[i].tasks[steps[i].task].slot == slot
  }

  /** The content for which `slot` was reserved: that of the first insert that worked. */
  ghost function Content(hubs: seq<Hub>, steps: seq<Step>, n: nat, slot: Slot): Option<Message>
    requires |hubs| == |steps| + 1 && n <= |steps|
  {
    if n == 0 then None
    else
      var before := Content(hubs, steps, n - 1, slot);
      if before == None && StepOn(hubs, steps, n - 1, slot) && steps[n - 1].Insert? && steps[n - 1].ok
      then Some(hubs[n - 1].tasks[steps[n - 1].task].message)
      else before
  }

  /** What was decided about the reservation: by the gate, or by the machine. */
  ghost function Decided(hubs: seq<Hub>, steps: seq<Step>, n: nat, slot: Slot): Option<Receipt>
    requires |hubs| == |steps| + 1 && n <= |steps|
  {
    if n == 0 then None
    else if StepOn(hubs, steps, n - 1, slot) && steps[n - 1].Hear? then Some(steps[n - 1].outcome)
    else if StepOn(hubs, steps, n - 1, slot) && steps[n - 1] == Decide(steps[n - 1].task, NoControl) then
      Some(NO_CONTROL)
    else if StepOn(hubs, steps, n - 1, slot) && steps[n - 1] == Decide(steps[n - 1].task, OldNode) then Some(OLD_NODE)
    else Decided(hubs, steps, n - 1, slot)
  }

  /** The update of the row worked. */
  ghost predicate SavedBy(hubs: seq<Hub>, steps: seq<Step>, n: nat, slot: Slot)
    requires |hubs| == |steps| + 1 && n <= |steps|
  {
    exists i :: 0 <= i < n && StepOn(hubs, steps, i, slot) && steps[i].Save? && steps[i].ok
  }

  /** What a repeat of `m` is to be answered before step `n`. */
  ghost function Known(hubs: seq<Hub>, steps: seq<Step>, n: nat, slot: Slot, m: Message): Receipt
    requires |hubs| == |steps| + 1 && n <= |steps|
  {
    if Content(hubs, steps, n, slot) != Some(m) then OTHER_CONTENT
    else if SavedBy(hubs, steps, n, slot) then Decided(hubs, steps, n, slot).GetOr(PENDING)
    else PENDING
  }

  /** The answer call `t` has got so far, by its own last step. */
  ghost function Got(hubs: seq<Hub>, steps: seq<Step>, n: nat, t: nat): Option<Receipt>
    requires |hubs| == |steps| + 1 && n <= |steps|
  {
    if n == 0 then None
    else if steps[n - 1].Crash? || steps[n - 1].task != t || t !in hubs[n - 1].tasks then
      Got(hubs, steps, n - 1, t)
    else
      var task := hubs[n - 1].tasks[t];
      match steps[n - 1]
      case Insert(_, ok, error) => if ok then None else Some(Receipt(Unknown, error))
      case Read(_, ok, error) =>
        Some(if ok then Known(hubs, steps, n - 1, task.slot, task.message) else Receipt(Unknown, error))
      case Save(_, _) => Decided(hubs, steps, n - 1, task.slot)
      case _ => None
  }

  // ---------- The table ----------

  ghost predicate RowsSay(hubs: seq<Hub>, steps: seq<Step>, n: nat, slot: Slot)
    requires |hubs| == |steps| + 1 && n <= |steps|
  {
    var h, content, decided := hubs[n], Content(hubs, steps, n, slot), Decided(hubs, steps, n, slot);
    && (slot in h.rows <==> content.Some?)
    && (slot in h.fates ==> h.fates[slot].final == decided)
    && (slot !in h.fates ==> decided == None)
    && (slot in h.rows ==>
          && content == Some(h.rows[slot].digest)
          && (SavedBy(hubs, steps, n, slot) ==> decided.Some?)
          && h.rows[slot].receipt == if SavedBy(hubs, steps, n, slot) then decided.value else PENDING)
    && (SavedBy(hubs, steps, n, slot) ==> slot in h.rows)
  }

  lemma SavedOneMore(hubs: seq<Hub>, steps: seq<Step>, n: nat, slot: Slot)
    requires |hubs| == |steps| + 1 && 0 < n <= |steps|
    ensures SavedBy(hubs, steps, n, slot) <==>
            || SavedBy(hubs, steps, n - 1, slot)
            || (StepOn(hubs, steps, n - 1, slot) && steps[n - 1].Save? && steps[n - 1].ok)
  {
  }

  /** A step about something else. */
  lemma RowStays(h: Hub, s: Step, slot: Slot)
    requires Enabled(h, s)
    requires s.Crash? || s.Submit? || h.tasks[s.task].slot != slot
    ensures slot in Next(h, s).rows <==> slot in h.rows
    ensures slot in h.rows ==> Next(h, s).rows[slot] == h.rows[slot]
    ensures slot in Next(h, s).fates <==> slot in h.fates
    ensures slot in h.fates ==> Next(h, s).fates[slot] == h.fates[slot]
  {
  }

  /** A step about the slot. */
  lemma RowMoves(h: Hub, s: Step)
    requires Safe(h) && Enabled(h, s) && !s.Crash? && !s.Submit?
    ensures var slot, m := h.tasks[s.task].slot, h.tasks[s.task].message;
            && (slot in Next(h, s).rows <==> slot in h.rows || (s.Insert? && s.ok))
            && (slot in h.rows ==> Next(h, s).rows[slot].digest == h.rows[slot].digest)
            && (slot in h.rows && !(s.Save? && s.ok) ==> Next(h, s).rows[slot] == h.rows[slot])
            && (slot in h.rows && s.Save? && s.ok ==>
                  slot in h.fates && h.fates[slot].final == Some(Next(h, s).rows[slot].receipt))
            && (slot !in h.rows && s.Insert? && s.ok ==> Next(h, s).rows[slot] == Row(m, PENDING))
            && (s.Save? ==> slot in h.rows)
  {
    assert TaskOk(h, s.task);
  }

  lemma FateMoves(h: Hub, s: Step)
    requires Safe(h) && Enabled(h, s) && !s.Crash? && !s.Submit?
    ensures var slot, f := h.tasks[s.task].slot, Next(h, s).fates;
            && (slot in f <==> slot in h.fates || (s.Insert? && s.ok))
            && (slot in f ==>
                  f[slot].final == match s
                                   case Hear(_, outcome) => Some(outcome)
                                   case Decide(_, NoControl) => Some(NO_CONTROL)
                                   case Decide(_, OldNode) => Some(OLD_NODE)
                                   case _ => if slot in h.fates then h.fates[slot].final else None)
  {
    assert TaskOk(h, s.task);
  }

  lemma RowsStep(hubs: seq<Hub>, steps: seq<Step>, n: nat, slot: Slot)
    requires |hubs| == |steps| + 1 && 0 < n <= |steps| && Safe(hubs[n - 1])
    requires Enabled(hubs[n - 1], steps[n - 1]) && hubs[n] == Next(hubs[n - 1], steps[n - 1])
    requires RowsSay(hubs, steps, n - 1, slot)
    ensures RowsSay(hubs, steps, n, slot)
  {
    SavedOneMore(hubs, steps, n, slot);
    if StepOn(hubs, steps, n - 1, slot) {
      RowMoves(hubs[n - 1], steps[n - 1]);
      FateMoves(hubs[n - 1], steps[n - 1]);
    } else {
      RowStays(hubs[n - 1], steps[n - 1], slot);
    }
  }

  /** Over every run: a row is there exactly for what was reserved, and holds what was decided as soon as an
      update worked, and "pending" until then. */
  lemma {:induction false} RowsAre(hubs: seq<Hub>, steps: seq<Step>, n: nat, slot: Slot)
    requires IsRun(hubs, steps) && n <= |steps|
    ensures RowsSay(hubs, steps, n, slot)
    decreases n
  {
    if n > 0 {
      RowsAre(hubs, steps, n - 1, slot);
      StepOfRun(hubs, steps, n - 1);
      RowsStep(hubs, steps, n, slot);
    }
  }

  // ---------- The answers ----------

  /** The call `t` is where its own last step took it. */
  ghost predicate TaskSays(hubs: seq<Hub>, steps: seq<Step>, n: nat, t: nat)
    requires |hubs| == |steps| + 1 && n <= |steps|
  {
    t in hubs[n].tasks ==>
      var stage := hubs[n].tasks[t].stage;
      && (stage.Replying? ==> Got(hubs, steps, n, t) == Some(stage.receipt))
      && (stage.Saving? ==> Decided(hubs, steps, n, hubs[n].tasks[t].slot) == Some(stage.receipt))
  }

  lemma TaskMoves(h: Hub, s: Step, t: nat)
    requires Enabled(h, s) && t in Next(h, s).tasks
    ensures s.Crash? || s.task != t ==> t in h.tasks && Next(h, s).tasks[t] == h.tasks[t] && !s.Crash?
    ensures !s.Crash? && s.task == t && t in h.tasks ==>
              && Next(h, s).tasks[t].slot == h.tasks[t].slot && Next(h, s).tasks[t].message == h.tasks[t].message
    ensures !s.Crash? && s.task == t && Next(h, s).tasks[t].stage.Replying? ==>
              && t in h.tasks
              && Next(h, s).tasks[t].stage.receipt ==
                 match s
                 case Insert(_, _, error) => Receipt(Unknown, error)
                 case Read(_, ok, error) =>
                   if !ok then Receipt(Unknown, error)
                   else if h.tasks[t].slot in h.rows && h.rows[h.tasks[t].slot].digest == h.tasks[t].message
                   then h.rows[h.tasks[t].slot].receipt
                   else OTHER_CONTENT
                 case _ => if h.tasks[t].stage.Saving? then h.tasks[t].stage.receipt else PENDING
    ensures !s.Crash? && s.task == t && Next(h, s).tasks[t].stage.Replying? ==>
              (s.Insert? && !s.ok) || s.Read? || (s.Save? && h.tasks[t].stage.Saving?)
  {
  }

  lemma SavingSays(hubs: seq<Hub>, steps: seq<Step>, n: nat, t: nat)
    requires IsRun(hubs, steps) && n <= |steps| && t in hubs[n].tasks && hubs[n].tasks[t].stage.Saving?
    ensures Decided(hubs, steps, n, hubs[n].tasks[t].slot) == Some(hubs[n].tasks[t].stage.receipt)
  {
    RunIsSafe(hubs, steps, n);
    RowsAre(hubs, steps, n, hubs[n].tasks[t].slot);
    assert TaskOk(hubs[n], t);
  }

  lemma {:induction false} TasksAre(hubs: seq<Hub>, steps: seq<Step>, n: nat, t: nat)
    requires IsRun(hubs, steps) && n <= |steps|
    ensures TaskSays(hubs, steps, n, t)
    decreases n
  {
    if t in hubs[n].tasks && hubs[n].tasks[t].stage.Saving? {
      SavingSays(hubs, steps, n, t);
    }
    if n > 0 && t in hubs[n].tasks {
      TasksAre(hubs, steps, n - 1, t);
      StepOfRun(hubs, steps, n - 1);
      TaskMoves(hubs[n - 1], steps[n - 1], t);
      if t in hubs[n - 1].tasks {
        RowsAre(hubs, steps, n - 1, hubs[n - 1].tasks[t].slot);
      }
    }
  }

  /** Over every run, exactly what is answered: an invalid message that it is, at once; every other call what
      its insert, read or decision came to. */
  lemma AnsweredExactly(hubs: seq<Hub>, steps: seq<Step>, i: nat)
    requires IsRun(hubs, steps) && i < |steps|
    ensures hubs[i + 1].replies == hubs[i].replies +
              match steps[i]
              case Submit(_, slot, m) =>
                if m.problem.Some? then [Reply(slot, m, Receipt(Failed, m.problem.value))] else []
              case Answer(t) =>
                if t in hubs[i].tasks && Got(hubs, steps, i, t).Some? then
                  [Reply(hubs[i].tasks[t].slot, hubs[i].tasks[t].message, Got(hubs, steps, i, t).value)]
                else []
              case _ => []
    ensures steps[i].Answer? ==> steps[i].task in hubs[i].tasks && Got(hubs, steps, i, steps[i].task).Some?
  {
    StepOfRun(hubs, steps, i);
    if steps[i].Answer? {
      TasksAre(hubs, steps, i, steps[i].task);
    }
  }

  /** And exactly what is dispatched: what the gate lets through, when it does. */
  lemma DispatchedExactly(hubs: seq<Hub>, steps: seq<Step>, i: nat)
    requires IsRun(hubs, steps) && i < |steps|
    ensures hubs[i + 1].sends == hubs[i].sends +
              if steps[i].Decide? && steps[i].gate == Open && steps[i].task in hubs[i].tasks
              then [Sent(hubs[i].tasks[steps[i].task].slot, hubs[i].tasks[steps[i].task].message)]
              else []
  {
    StepOfRun(hubs, steps, i);
  }

  lemma {:induction false} GotStays(hubs: seq<Hub>, steps: seq<Step>, j: nat, m: nat, t: nat)
    requires IsRun(hubs, steps) && j < m <= |steps|
    requires forall i :: j < i < m ==> !steps[i].Crash? && steps[i].task != t
    ensures Got(hubs, steps, m, t) == Got(hubs, steps, j + 1, t)
    ensures t in hubs[j + 1].tasks ==> t in hubs[m].tasks && hubs[m].tasks[t] == hubs[j + 1].tasks[t]
    decreases m
  {
    if j + 1 < m {
      GotStays(hubs, steps, j, m - 1, t);
      StepOfRun(hubs, steps, m - 1);
    }
  }

  /** A repeated id whose insert and read work is answered: "pending" until the receipt of the first was
      saved, from then on that very receipt, and to any other content that it is another one. */
  lemma RepeatIsAnswered(hubs: seq<Hub>, steps: seq<Step>, j: nat, m: nat, t: nat)
    requires IsRun(hubs, steps) && j < m < |steps| && steps[j].Read? && steps[j].ok && steps[j].task == t
    requires steps[m] == Answer(t) && forall i :: j < i < m ==> !steps[i].Crash? && steps[i].task != t
    ensures t in hubs[j].tasks
    ensures var task := hubs[j].tasks[t];
            var h := hubs[j];
            && task.slot in h.rows && task.slot in h.fates
            && hubs[m + 1].replies == hubs[m].replies + [Reply(task.slot, task.message,
                 if h.fates[task.slot].content != task.message then OTHER_CONTENT
                 else if SavedBy(hubs, steps, j, task.slot) then h.fates[task.slot].final.GetOr(PENDING)
                 else PENDING)]
    ensures SavedBy(hubs, steps, j, hubs[j].tasks[t].slot) ==> hubs[j].fates[hubs[j].tasks[t].slot].final.Some?
  {
    StepOfRun(hubs, steps, j);
    AnsweredExactly(hubs, steps, m);
    GotStays(hubs, steps, j, m, t);
    RowsAre(hubs, steps, j, hubs[j].tasks[t].slot);
    ReadingIsRepeat(hubs, steps, j, t);
  }

  lemma ReadingMoves(h: Hub, s: Step, t: nat)
    requires Enabled(h, s) && t in Next(h, s).tasks && Next(h, s).tasks[t].stage == Reading
    ensures t in h.tasks && Next(h, s).tasks[t].slot == h.tasks[t].slot
    ensures h.tasks[t].stage == Reading || h.tasks[t].slot in h.rows
    ensures h.rows.Keys <= Next(h, s).rows.Keys
  {
  }

  lemma {:induction false} ReadingFound(hubs: seq<Hub>, steps: seq<Step>, n: nat, t: nat)
    requires IsRun(hubs, steps) && n <= |steps| && t in hubs[n].tasks && hubs[n].tasks[t].stage == Reading
    ensures hubs[n].tasks[t].slot in hubs[n].rows
    decreases n
  {
    if n > 0 {
      assert StepAt(hubs, steps, n - 1);
      ReadingMoves(hubs[n - 1], steps[n - 1], t);
      if hubs[n - 1].tasks[t].stage == Reading {
        ReadingFound(hubs, steps, n - 1, t);
      }
    }
  }

  /** Only who found a row reads it. */
  lemma ReadingIsRepeat(hubs: seq<Hub>, steps: seq<Step>, n: nat, t: nat)
    requires IsRun(hubs, steps) && n <= |steps| && t in hubs[n].tasks && hubs[n].tasks[t].stage == Reading
    ensures hubs[n].tasks[t].slot in hubs[n].rows && hubs[n].tasks[t].slot in hubs[n].fates
    ensures hubs[n].fates[hubs[n].tasks[t].slot].content == hubs[n].rows[hubs[n].tasks[t].slot].digest
  {
    ReadingFound(hubs, steps, n, t);
    RunIsSafe(hubs, steps, n);
    assert RowOk(hubs[n], hubs[n].tasks[t].slot);
  }
}
