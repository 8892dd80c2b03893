/**
  Composer sends (crates/hub/src/composer.rs): a row is reserved before a message is dispatched and
  is never dispatched again, whatever fails afterwards.
*/
module Composer {
  import opened Wrappers

  datatype Status = Delivered | Failed | Unknown

  datatype Receipt = Receipt(status: Status, detail: string)

  /** `problem` is what validation finds wrong with the message. The digest of a message is modelled
      by the message itself. */
  datatype Message = Message(id: string, text: string, problem: Option<string>)

  /** The table's primary key. */
  datatype Slot = Slot(user: string, machine: string, terminal: string, id: string)

  datatype Row = Row(digest: Message, receipt: Receipt)

  const PENDING :=
    Receipt(Unknown, "Delivery is pending or unconfirmed. Check status again; this message will not be sent twice.")
  const OTHER_CONTENT :=
    Receipt(Unknown, "This send ID belongs to different content. The original message was not resent.")
  const NO_CONTROL := Receipt(Failed, "Take control before sending a message")
  const OLD_NODE := Receipt(Failed, "Update this machine's offdesk-node to use the local editor")

  /** Whether a new message may be dispatched. */
  datatype Gate = NoControl | OldNode | Open

  /** Where one call of `submit` stands. */
  datatype Stage =
    | Reserving
    | Reading
    | Reserved
    | Waiting
    | Saving(receipt: Receipt)
    | Replying(receipt: Receipt)

  datatype Task = Task(slot: Slot, message: Message, stage: Stage)

  datatype Sent = Sent(slot: Slot, message: Message)

  datatype Reply = Reply(slot: Slot, message: Message, receipt: Receipt)

  /** What became of a reservation: who made it, for what, what the gate said, how it ended. */
  datatype Fate = Fate(owner: nat, content: Message, gate: Option<Gate>, final: Option<Receipt>)

  /** The hub: the table, the calls under way, everything dispatched and answered so far. `fates` only
      records; nothing depends on it. */
  datatype Hub = Hub(
    rows: map<Slot, Row>, tasks: map<nat, Task>, sends: seq<Sent>, replies: seq<Reply>, fates: map<Slot, Fate>)

  datatype Step =
    | Submit(task: nat, slot: Slot, message: Message)
    | Insert(task: nat, ok: bool, error: string)
    | Read(task: nat, ok: bool, error: string)
    | Decide(task: nat, gate: Gate)
    | Hear(task: nat, outcome: Receipt)
    | Save(task: nat, ok: bool)
    | Answer(task: nat)
    | Crash

  const NEW_HUB := Hub(map[], map[], [], [], map[])

  predicate Enabled(h: Hub, s: Step) {
    match s
    case Submit(t, slot, m) => t !in h.tasks && slot.id == m.id
    case Insert(t, _, _) => t in h.tasks && h.tasks[t].stage == Reserving
    case Read(t, _, _) => t in h.tasks && h.tasks[t].stage == Reading
    case Decide(t, _) => t in h.tasks && h.tasks[t].stage == Reserved
    case Hear(t, _) => t in h.tasks && h.tasks[t].stage == Waiting
    case Save(t, _) => t in h.tasks && h.tasks[t].stage.Saving?
    case Answer(t) => t in h.tasks && h.tasks[t].stage.Replying?
    case Crash => true
  }

  function Moved(h: Hub, t: nat, stage: Stage): Hub
    requires t in h.tasks
  {
    h.(tasks := h.tasks[t := h.tasks[t].(stage := stage)])
  }

  /** What a repeated id gets: the stored receipt, if the content is the same. */
  function Stored(rows: map<Slot, Row>, slot: Slot, m: Message): Receipt {
    if slot in rows && rows[slot].digest == m then rows[slot].receipt else OTHER_CONTENT
  }

  function Inserted(h: Hub, t: nat): Hub
    requires t in h.tasks
  {
    var task := h.tasks[t];
    if task.slot in h.rows then Moved(h, t, Reading)
    else
      Moved(h, t, Reserved).(
        rows := h.rows[task.slot := Row(task.message, PENDING)],
        fates := h.fates[task.slot := Fate(t, task.message, None, None)])
  }

  function FateOf(h: Hub, t: nat): Fate
    requires t in h.tasks
  {
    var task := h.tasks[t];
    if task.slot in h.fates then h.fates[task.slot] else Fate(t, task.message, None, None)
  }

  /** The call goes on, and its reservation's fate is updated. */
  function Recorded(h: Hub, t: nat, stage: Stage, fate: Fate): Hub
    requires t in h.tasks
  {
    Moved(h, t, stage).(fates := h.fates[h.tasks[t].slot := fate])
  }

  function Refused(h: Hub, t: nat, gate: Gate, receipt: Receipt): Hub
    requires t in h.tasks
  {
    Recorded(h, t, Saving(receipt), FateOf(h, t).(gate := Some(gate), final := Some(receipt)))
  }

  function Dispatched(h: Hub, t: nat): Hub
    requires t in h.tasks
  {
    Recorded(h, t, Waiting, FateOf(h, t).(gate := Some(Open)))
      .(sends := h.sends + [Sent(h.tasks[t].slot, h.tasks[t].message)])
  }

  function Heard(h: Hub, t: nat, outcome: Receipt): Hub
    requires t in h.tasks
  {
    Recorded(h, t, Saving(outcome), FateOf(h, t).(final := Some(outcome)))
  }

  /** The update of a slot's receipt; without a row it changes nothing. */
  function Updated(rows: map<Slot, Row>, slot: Slot, receipt: Receipt): map<Slot, Row> {
    if slot in rows then rows[slot := rows[slot].(receipt := receipt)] else rows
  }

  function Saved(h: Hub, t: nat, ok: bool): Hub
    requires t in h.tasks && h.tasks[t].stage.Saving?
  {
    var task := h.tasks[t];
    Moved(h, t, Replying(task.stage.receipt))
      .(rows := if ok then Updated(h.rows, task.slot, task.stage.receipt) else h.rows)
  }

  function Answered(h: Hub, t: nat): Hub
    requires t in h.tasks && h.tasks[t].stage.Replying?
  {
    var task := h.tasks[t];
    h.(tasks := h.tasks - {t}, replies := h.replies + [Reply(task.slot, task.message, task.stage.receipt)])
  }

  function Next(h: Hub, s: Step): Hub
    requires Enabled(h, s)
  {
    match s
    case Submit(t, slot, m) =>
      if m.problem.Some? then h.(replies := h.replies + [Reply(slot, m, Receipt(Failed, m.problem.value))])
      else h.(tasks := h.tasks[t := Task(slot, m, Reserving)])
    case Insert(t, ok, error) =>
      if ok then Inserted(h, t) else Moved(h, t, Replying(Receipt(Unknown, error)))
    case Read(t, ok, error) =>
      var task := h.tasks[t];
      Moved(h, t, Replying(if ok then Stored(h.rows, task.slot, task.message) else Receipt(Unknown, error)))
    case Decide(t, gate) =>
      (match gate
       case NoControl => Refused(h, t, gate, NO_CONTROL)
       case OldNode => Refused(h, t, gate, OLD_NODE)
       case Open => Dispatched(h, t))
    case Hear(t, outcome) => Heard(h, t, outcome)
    case Save(t, ok) => Saved(h, t, ok)
    case Answer(t) => Answered(h, t)
    case Crash => h.(tasks := map[])
  }
}
