/**
  Receipts are true from end to end: the hub's receipts, the request that carries a message to its
  machine, and the writers of the nodes, as one step system (crates/hub/src/composer.rs,
  crates/hub/src/machine_manager.rs, crates/machine/src/hub_conn.rs, crates/machine/src/attach.rs).
*/
module ComposerEndToEnd {
  import opened Wrappers
  import C = Composer
  import I = ComposerInvariant
  import A = Attach
  import N = AttachCalls

  type Pastes = (nat, C.Message) -> string

  /** Where the request for a dispatched message stands: not sent yet, at the node or on its way, written
      by a call, or answered. */
  datatype Request = Unsent | Underway | Called | Back(receipt: C.Receipt)

  /** `requests[d]` is the request of dispatch `d`, which is also the number of its call at the node;
      `waits` says which dispatch a call of `submit` waits for, and `pending` which answers are still
      listened for. `pasteOf` is what a node makes of the message of a
      dispatch, which differs from dispatch to dispatch: attachments go into a directory of its own. */
  datatype Both = Both(
    hub: C.Hub, waits: map<nat, nat>, pending: set<nat>, requests: seq<Request>,
    node: N.Node, pasteOf: Pastes)

  datatype Step =
    | AtHub(step: C.Step)
    | SendFails(task: nat, error: string)
    | SendGoes(task: nat)
    | CannotPrepare(dispatch: nat, error: string)
    | Call(dispatch: nat, attach: string)
    | AtNode(work: N.Step)
    | Report(dispatch: nat, detail: string)
    | HearBack(task: nat)
    | TimeOut(task: nat)

  const UNCONFIRMED :=
    C.Receipt(C.Unknown, "Delivery could not be confirmed. Check the terminal before sending anything again.")

  ghost predicate Waiting(b: Both, t: nat) {
    && t in b.hub.tasks && b.hub.tasks[t].stage == C.Waiting
    && t in b.waits && b.waits[t] < |b.requests| && b.waits[t] < |b.hub.sends|
  }

  ghost predicate Enabled(b: Both, s: Step) {
    match s
    case AtHub(step) => !step.Hear? && C.Enabled(b.hub, step)
    case SendFails(t, _) => Waiting(b, t) && b.requests[b.waits[t]] == Unsent
    case SendGoes(t) => Waiting(b, t) && b.requests[b.waits[t]] == Unsent
    case CannotPrepare(d, _) => d < |b.requests| && b.requests[d] == Underway
    case Call(d, _) => d < |b.requests| && d < |b.hub.sends| && b.requests[d] == Underway && d !in b.node.calls
    case AtNode(work) => !work.BeginCall? && N.Enabled(b.node, work)
    case Report(d, _) =>
      d < |b.requests| && b.requests[d] == Called && d in b.node.calls && b.node.calls[d].verdict.Some?
    case HearBack(t) => Waiting(b, t) && b.waits[t] in b.pending && b.requests[b.waits[t]].Back?
    case TimeOut(t) => Waiting(b, t)
  }

  /** The receipt a node reports for a call. */
  function ReceiptOf(v: N.Verdict, detail: string): C.Receipt {
    C.Receipt(match v case Done => C.Delivered case Failed => C.Failed case Unknown => C.Unknown, detail)
  }

  /** The call of `submit` hears `outcome` and listens no more. */
  ghost function Heard(b: Both, t: nat, outcome: C.Receipt): Both
    requires Waiting(b, t)
  {
    b.(hub := C.Next(b.hub, C.Hear(t, outcome)), pending := b.pending - {b.waits[t]})
  }

  ghost function Moved(b: Both, d: nat, r: Request): Both
    requires d < |b.requests|
  {
    b.(requests := b.requests[d := r])
  }

  /** A dispatch registers its request before it sends it. */
  ghost function AfterHub(b: Both, step: C.Step): Both
    requires C.Enabled(b.hub, step)
  {
    var next := b.(hub := C.Next(b.hub, step));
    if step.Decide? && step.gate == C.Open then
      var d := |b.hub.sends|;
      next.(waits := b.waits[step.task := d], pending := b.pending + {d}, requests := b.requests + [Unsent])
    else if step.Crash? then next.(waits := map[], pending := {})
    else next
  }

  ghost function Next(b: Both, s: Step): Both
    requires Enabled(b, s)
  {
    match s
    case AtHub(step) => AfterHub(b, step)
    case SendFails(t, error) =>
      var failed := C.Receipt(C.Failed, error);
      Heard(Moved(b, b.waits[t], Back(failed)), t, failed)
    case SendGoes(t) => Moved(b, b.waits[t], Underway)
    case CannotPrepare(d, error) => Moved(b, d, Back(C.Receipt(C.Failed, error)))
    case Call(d, attach) =>
      Moved(b, d, Called).(node := N.Next(b.node, N.BeginCall(d, attach, b.pasteOf(d, b.hub.sends[d].message))))
    case AtNode(work) => b.(node := N.Next(b.node, work))
    case Report(d, detail) => Moved(b, d, Back(ReceiptOf(b.node.calls[d].verdict.value, detail)))
    case HearBack(t) => Heard(b, t, b.requests[b.waits[t]].receipt)
    case TimeOut(t) => Heard(b, t, UNCONFIRMED)
  }

  /** Whoever waits waits for a dispatch of its own slot. */
  ghost predicate WaitsOk(h: C.Hub, waits: map<nat, nat>) {
    forall t <- h.tasks :: h.tasks[t].stage == C.Waiting ==>
      t in waits && waits[t] < |h.sends| && h.sends[waits[t]].slot == h.tasks[t].slot
  }

  /** Every call at a node writes the message dispatched under its number. */
  ghost predicate CallsOk(
    sends: seq<C.Sent>, requests: seq<Request>, calls: map<nat, N.Call>, pasteOf: Pastes)
  {
    forall c <- calls ::
      && c < |requests| && c < |sends| && (requests[c].Called? || requests[c].Back?)
      && calls[c].paste == pasteOf(c, sends[c].message)
  }

  /** What came back about dispatch `d` is true. */
  ghost predicate BackIsTrue(calls: map<nat, N.Call>, d: nat, r: C.Receipt) {
    && (r.status == C.Delivered ==> d in calls && calls[d].verdict == Some(N.Done))
    && (r.status == C.Failed && d in calls ==> calls[d].verdict == Some(N.Failed))
  }

  ghost predicate RequestsOk(requests: seq<Request>, calls: map<nat, N.Call>) {
    forall d: nat :: d < |requests| && requests[d].Back? ==> BackIsTrue(calls, d, requests[d].receipt)
  }

  ghost predicate DecidedFor(h: C.Hub, slot: C.Slot, r: C.Receipt) {
    slot in h.fates && h.fates[slot].final == Some(r)
  }

  ghost predicate WasSent(sends: seq<C.Sent>, slot: C.Slot) { exists d :: 0 <= d < |sends| && sends[d].slot == slot }

  /** A final receipt that is not Unknown is what came back. */
  ghost predicate FinalsOk(h: C.Hub, requests: seq<Request>) {
    && (forall d: nat, r :: d < |h.sends| && DecidedFor(h, h.sends[d].slot, r) && r.status != C.Unknown ==>
          d < |requests| && requests[d] == Back(r))
    && (forall slot, r :: DecidedFor(h, slot, r) && r.status == C.Delivered ==> WasSent(h.sends, slot))
  }

  ghost predicate Safe(b: Both) {
    && I.Safe(b.hub) && N.Safe(b.node) && |b.requests| == |b.hub.sends|
    && WaitsOk(b.hub, b.waits) && CallsOk(b.hub.sends, b.requests, b.node.calls, b.pasteOf)
    && RequestsOk(b.requests, b.node.calls) && FinalsOk(b.hub, b.requests)
  }

  // ---------- Steps at the node ----------

  /** Calls that only progress keep what came back true. */
  lemma ProgressKeepsTrue(requests: seq<Request>, was: map<nat, N.Call>, now: map<nat, N.Call>)
    requires RequestsOk(requests, was) && N.Progressed(was, now)
    requires forall c <- now :: c in was || (c < |requests| && !requests[c].Back?)
    ensures RequestsOk(requests, now)
  {
    forall d: nat | d < |requests| && requests[d].Back? ensures BackIsTrue(now, d, requests[d].receipt) {
      assert BackIsTrue(was, d, requests[d].receipt);
    }
  }

  lemma NoNewCalls(n: N.Node, work: N.Step)
    requires N.Enabled(n, work) && !work.BeginCall?
    ensures N.Next(n, work).calls.Keys == n.calls.Keys
  {
  }

  lemma NodeKeepsSafe(b: Both, work: N.Step)
    requires Safe(b) && Enabled(b, AtNode(work))
    ensures Safe(Next(b, AtNode(work)))
  {
    var m := Next(b, AtNode(work));
    N.StepKeepsSafe(b.node, work);
    N.StepProgresses(b.node, work);
    NoNewCalls(b.node, work);
    ProgressKeepsTrue(b.requests, b.node.calls, m.node.calls);
    assert forall c <- m.node.calls :: m.node.calls[c].paste == b.node.calls[c].paste;
  }

  lemma CallKeepsCallsOk(b: Both, d: nat, attach: string)
    requires Enabled(b, Call(d, attach)) && CallsOk(b.hub.sends, b.requests, b.node.calls, b.pasteOf)
    ensures var m := Next(b, Call(d, attach)); CallsOk(m.hub.sends, m.requests, m.node.calls, m.pasteOf)
  {
  }

  lemma CallKeepsSafe(b: Both, d: nat, attach: string)
    requires Safe(b) && Enabled(b, Call(d, attach))
    ensures Safe(Next(b, Call(d, attach)))
  {
    var begin := N.BeginCall(d, attach, b.pasteOf(d, b.hub.sends[d].message));
    var moved := Moved(b, d, Called);
    MovedKeepsRequests(b, d, Called);
    CallKeepsCallsOk(b, d, attach);
    N.StepKeepsSafe(b.node, begin);
    N.StepProgresses(b.node, begin);
    BeginAddsOne(b.node, d, attach, begin.paste);
    ProgressKeepsTrue(moved.requests, b.node.calls, N.Next(b.node, begin).calls);
  }

  lemma BeginAddsOne(n: N.Node, d: nat, attach: string, paste: string)
    requires N.Enabled(n, N.BeginCall(d, attach, paste))
    ensures N.Next(n, N.BeginCall(d, attach, paste)).calls.Keys == n.calls.Keys + {d}
  {
  }

  // ---------- Requests ----------

  /** A request that was not answered yet moves on. */
  lemma MovedKeepsRequests(b: Both, d: nat, r: Request)
    requires FinalsOk(b.hub, b.requests) && RequestsOk(b.requests, b.node.calls)
    requires d < |b.requests| && !b.requests[d].Back? && (r.Back? ==> BackIsTrue(b.node.calls, d, r.receipt))
    ensures FinalsOk(b.hub, Moved(b, d, r).requests) && RequestsOk(Moved(b, d, r).requests, b.node.calls)
  {
    var m := Moved(b, d, r);
    forall e: nat | e < |m.requests| && m.requests[e].Back? ensures BackIsTrue(b.node.calls, e, m.requests[e].receipt) {
      if e != d {
        assert BackIsTrue(b.node.calls, e, b.requests[e].receipt);
      }
    }
  }

  lemma MovedKeepsSafe(b: Both, d: nat, r: Request)
    requires Safe(b) && d < |b.requests| && !b.requests[d].Back?
    requires r.Back? ==> BackIsTrue(b.node.calls, d, r.receipt)
    requires !r.Called? && !r.Back? ==> d !in b.node.calls
    ensures Safe(Moved(b, d, r))
  {
    MovedKeepsRequests(b, d, r);
  }

  // ---------- Steps at the hub ----------

  /** The one dispatch of the slot a call waits for. */
  lemma OneDispatch(b: Both, t: nat, e: nat)
    requires Safe(b) && Waiting(b, t) && e < |b.hub.sends| && b.hub.sends[e].slot == b.hub.tasks[t].slot
    ensures e == b.waits[t]
  {
  }

  lemma HearDecides(h: C.Hub, t: nat, outcome: C.Receipt, slot: C.Slot, r: C.Receipt)
    requires I.Safe(h) && C.Enabled(h, C.Hear(t, outcome)) && DecidedFor(C.Next(h, C.Hear(t, outcome)), slot, r)
    ensures if slot == h.tasks[t].slot then r == outcome else DecidedFor(h, slot, r)
    ensures C.Next(h, C.Hear(t, outcome)).sends == h.sends
  {
  }

  lemma HeardFinals(b: Both, t: nat, outcome: C.Receipt)
    requires Safe(b) && Waiting(b, t)
    requires outcome.status == C.Unknown || b.requests[b.waits[t]] == Back(outcome)
    ensures FinalsOk(Heard(b, t, outcome).hub, b.requests)
  {
    var m := Heard(b, t, outcome).hub;
    forall e: nat, r | e < |m.sends| && DecidedFor(m, m.sends[e].slot, r) && r.status != C.Unknown
      ensures e < |b.requests| && b.requests[e] == Back(r)
    {
      HearDecides(b.hub, t, outcome, m.sends[e].slot, r);
      if m.sends[e].slot == b.hub.tasks[t].slot {
        OneDispatch(b, t, e);
      }
    }
    forall slot, r | DecidedFor(m, slot, r) && r.status == C.Delivered ensures WasSent(m.sends, slot) {
      HearDecides(b.hub, t, outcome, slot, r);
      if slot == b.hub.tasks[t].slot {
        assert b.hub.sends[b.waits[t]].slot == slot;
      }
    }
  }

  /** Hearing what came back, or nothing. */
  lemma HeardKeepsSafe(b: Both, t: nat, outcome: C.Receipt)
    requires Safe(b) && Waiting(b, t)
    requires outcome.status == C.Unknown || b.requests[b.waits[t]] == Back(outcome)
    ensures Safe(Heard(b, t, outcome))
  {
    I.StepKeepsSafe(b.hub, C.Hear(t, outcome));
    HeardFinals(b, t, outcome);
  }

  /** A step of the hub decides nothing but a refusal at the gate. */
  lemma HubDecides(h: C.Hub, step: C.Step, slot: C.Slot, r: C.Receipt)
    requires I.Safe(h) && C.Enabled(h, step) && !step.Hear?
    requires slot in C.Next(h, step).fates && C.Next(h, step).fates[slot].final == Some(r)
    ensures (slot in h.fates && h.fates[slot].final == Some(r)) ||
            (r.status == C.Failed && C.Next(h, step).fates[slot].gate != Some(C.Open))
  {
    if !step.Crash? && step.task in h.tasks {
      assert I.TaskOk(h, step.task);
    }
  }

  lemma HubSends(h: C.Hub, step: C.Step)
    requires C.Enabled(h, step)
    ensures C.Next(h, step).sends ==
            if step.Decide? && step.gate == C.Open
            then h.sends + [C.Sent(h.tasks[step.task].slot, h.tasks[step.task].message)] else h.sends
  {
  }

  lemma HubWaits(h: C.Hub, waits: map<nat, nat>, step: C.Step)
    requires WaitsOk(h, waits) && C.Enabled(h, step) && !(step.Decide? && step.gate == C.Open)
    ensures step.Crash? || WaitsOk(C.Next(h, step), waits)
  {
  }

  lemma DispatchWaits(h: C.Hub, waits: map<nat, nat>, t: nat)
    requires WaitsOk(h, waits) && C.Enabled(h, C.Decide(t, C.Open))
    ensures WaitsOk(C.Next(h, C.Decide(t, C.Open)), waits[t := |h.sends|])
  {
  }

  /** What is dispatched now was not decided before. */
  lemma NothingDecidedForNew(h: C.Hub, step: C.Step, d: nat, r: C.Receipt)
    requires I.Safe(h) && C.Enabled(h, step) && d < |C.Next(h, step).sends|
    requires DecidedFor(h, C.Next(h, step).sends[d].slot, r)
    ensures d < |h.sends| && h.sends[d] == C.Next(h, step).sends[d]
  {
    HubSends(h, step);
    if step.Decide? {
      assert I.TaskOk(h, step.task);
    }
  }

  lemma SentIsOpen(h: C.Hub, d: nat)
    requires I.Safe(h) && d < |h.sends|
    ensures h.sends[d].slot in h.fates && h.fates[h.sends[d].slot].gate == Some(C.Open)
  {
    assert h.sends[d] in h.sends;
  }

  lemma HubAnswers(h: C.Hub, requests: seq<Request>, step: C.Step, more: seq<Request>, d: nat, r: C.Receipt)
    requires I.Safe(h) && FinalsOk(h, requests) && C.Enabled(h, step) && !step.Hear? && requests <= more
    requires d < |C.Next(h, step).sends| && DecidedFor(C.Next(h, step), C.Next(h, step).sends[d].slot, r)
    requires r.status != C.Unknown && C.Next(h, step).fates[C.Next(h, step).sends[d].slot].gate == Some(C.Open)
    ensures d < |more| && more[d] == Back(r)
  {
    var m := C.Next(h, step);
    HubDecides(h, step, m.sends[d].slot, r);
    NothingDecidedForNew(h, step, d, r);
    assert requests[d] == more[d];
  }

  lemma HubFinals(h: C.Hub, requests: seq<Request>, step: C.Step, more: seq<Request>)
    requires I.Safe(h) && FinalsOk(h, requests) && C.Enabled(h, step) && !step.Hear? && requests <= more
    requires I.Safe(C.Next(h, step))
    ensures FinalsOk(C.Next(h, step), more)
  {
    var m := C.Next(h, step);
    forall d: nat, r | d < |m.sends| && DecidedFor(m, m.sends[d].slot, r) && r.status != C.Unknown
      ensures d < |more| && more[d] == Back(r)
    {
      SentIsOpen(m, d);
      HubAnswers(h, requests, step, more, d, r);
    }
    forall slot, r | DecidedFor(m, slot, r) && r.status == C.Delivered ensures WasSent(m.sends, slot) {
      HubDelivers(h, requests, step, slot, r);
    }
  }

  lemma HubDelivers(h: C.Hub, requests: seq<Request>, step: C.Step, slot: C.Slot, r: C.Receipt)
    requires I.Safe(h) && FinalsOk(h, requests) && C.Enabled(h, step) && !step.Hear?
    requires DecidedFor(C.Next(h, step), slot, r) && r.status == C.Delivered
    ensures WasSent(C.Next(h, step).sends, slot)
  {
    HubDecides(h, step, slot, r);
    HubSends(h, step);
    assert DecidedFor(h, slot, r) && WasSent(h.sends, slot);
    var d :| 0 <= d < |h.sends| && h.sends[d].slot == slot;
    assert C.Next(h, step).sends[d].slot == slot;
  }

  lemma MoreRequests(sends: seq<C.Sent>, more: seq<C.Sent>, requests: seq<Request>, requests': seq<Request>,
                     calls: map<nat, N.Call>, pasteOf: Pastes)
    requires CallsOk(sends, requests, calls, pasteOf) && RequestsOk(requests, calls)
    requires sends <= more && (requests' == requests || requests' == requests + [Unsent])
    ensures CallsOk(more, requests', calls, pasteOf) && RequestsOk(requests', calls)
  {
    forall d: nat | d < |requests'| && requests'[d].Back? ensures BackIsTrue(calls, d, requests'[d].receipt) {
      assert requests[d] == requests'[d];
    }
  }

  lemma HubKeepsSafe(b: Both, step: C.Step)
    requires Safe(b) && Enabled(b, AtHub(step))
    ensures Safe(Next(b, AtHub(step)))
  {
    var m := AfterHub(b, step);
    I.StepKeepsSafe(b.hub, step);
    HubSends(b.hub, step);
    HubFinals(b.hub, b.requests, step, m.requests);
    MoreRequests(b.hub.sends, m.hub.sends, b.requests, m.requests, b.node.calls, b.pasteOf);
    if step.Decide? && step.gate == C.Open {
      DispatchWaits(b.hub, b.waits, step.task);
    } else {
      HubWaits(b.hub, b.waits, step);
    }
  }

  /** Every step keeps every promise. */
  lemma StepKeepsSafe(b: Both, s: Step)
    requires Safe(b) && Enabled(b, s)
    ensures Safe(Next(b, s))
  {
    match s
    case AtHub(step) => HubKeepsSafe(b, step);
    case SendFails(t, error) => SendFailsKeepsSafe(b, t, error);
    case SendGoes(t) => MovedKeepsSafe(b, b.waits[t], Underway);
    case CannotPrepare(d, error) => MovedKeepsSafe(b, d, Back(C.Receipt(C.Failed, error)));
    case Call(d, attach) => CallKeepsSafe(b, d, attach);
    case AtNode(work) => NodeKeepsSafe(b, work);
    case Report(d, detail) => ReportKeepsSafe(b, d, detail);
    case HearBack(t) => HeardKeepsSafe(b, t, b.requests[b.waits[t]].receipt);
    case TimeOut(t) => HeardKeepsSafe(b, t, UNCONFIRMED);
  }

  lemma SendFailsKeepsSafe(b: Both, t: nat, error: string)
    requires Safe(b) && Enabled(b, SendFails(t, error))
    ensures Safe(Next(b, SendFails(t, error)))
  {
    var failed := C.Receipt(C.Failed, error);
    MovedKeepsSafe(b, b.waits[t], Back(failed));
    HeardKeepsSafe(Moved(b, b.waits[t], Back(failed)), t, failed);
  }

  lemma ReportKeepsSafe(b: Both, d: nat, detail: string)
    requires Safe(b) && Enabled(b, Report(d, detail))
    ensures Safe(Next(b, Report(d, detail)))
  {
    MovedKeepsSafe(b, d, Back(ReceiptOf(b.node.calls[d].verdict.value, detail)));
  }

  // ---------- Runs ----------

  ghost predicate IsRun(all: seq<Both>, steps: seq<Step>) {
    && |all| == |steps| + 1
    && all[0].hub == C.NEW_HUB && all[0].node == N.NEW_NODE
    && all[0].waits == map[] && all[0].pending == {} && all[0].requests == []
    && forall i :: 0 <= i < |steps| ==> StepAt(all, steps, i)
  }

  ghost predicate StepAt(all: seq<Both>, steps: seq<Step>, i: int)
    requires |all| == |steps| + 1 && 0 <= i < |steps|
  {
    Enabled(all[i], steps[i]) && all[i + 1] == Next(all[i], steps[i])
  }

  lemma {:induction false} RunIsSafe(all: seq<Both>, steps: seq<Step>, n: nat)
    requires IsRun(all, steps) && n <= |steps|
    ensures Safe(all[n])
    decreases n
  {
    if n > 0 {
      RunIsSafe(all, steps, n - 1);
      assert StepAt(all, steps, n - 1);
      StepKeepsSafe(all[n - 1], steps[n - 1]);
    }
  }

  /** The paste and its Enter are next to each other in the PTY. */
  lemma DoneIsWritten(n: N.Node, c: nat) returns (line: nat, before: string, after: string)
    requires N.Safe(n) && c in n.calls && n.calls[c].verdict == Some(N.Done)
    ensures line in n.lines && A.Stream(n.lines[line].log) == before + n.calls[c].paste + A.ENTER + after
  {
    assert N.CallOk(n, c);
    line := n.calls[c].line.value;
    before, after := N.AckedIsWritten(n, c);
  }

  /** Delivered is true: whoever is answered so, the paste made of that very message when it was dispatched
      and its Enter are next to each other in a PTY. */
  lemma DeliveredIsTrue(all: seq<Both>, steps: seq<Step>, n: nat, r: C.Reply)
    returns (d: nat, line: nat, before: string, after: string)
    requires IsRun(all, steps) && n <= |steps| && r in all[n].hub.replies
    requires r.message.problem == None && r.receipt.status == C.Delivered
    ensures d < |all[n].hub.sends| && all[n].hub.sends[d] == C.Sent(r.slot, r.message) && line in all[n].node.lines
    ensures A.Stream(all[n].node.lines[line].log) == before + all[n].pasteOf(d, r.message) + A.ENTER + after
  {
    var b := all[n];
    RunIsSafe(all, steps, n);
    assert I.ReplyOk(b.hub.fates, r) && DecidedFor(b.hub, r.slot, r.receipt);
    d :| 0 <= d < |b.hub.sends| && b.hub.sends[d].slot == r.slot;
    assert b.requests[d] == Back(r.receipt) && BackIsTrue(b.node.calls, d, r.receipt);
    assert b.hub.sends[d] in b.hub.sends;
    line, before, after := DoneIsWritten(b.node, d);
  }

  /** Failed is true: nothing dispatched under that id is, or ever was, in a queue or a PTY. */
  lemma FailedIsTrue(all: seq<Both>, steps: seq<Step>, n: nat, r: C.Reply, d: nat)
    requires IsRun(all, steps) && n <= |steps| && r in all[n].hub.replies
    requires r.message.problem == None && r.receipt.status == C.Failed
    requires d < |all[n].hub.sends| && all[n].hub.sends[d].slot == r.slot
    ensures N.Untouched(all[n].node, d)
  {
    var b := all[n];
    RunIsSafe(all, steps, n);
    assert I.ReplyOk(b.hub.fates, r) && DecidedFor(b.hub, r.slot, r.receipt);
    assert b.requests[d] == Back(r.receipt) && BackIsTrue(b.node.calls, d, r.receipt);
    assert d in b.node.calls ==> N.CallOk(b.node, d);
    N.NeverPushedIsUntouched(b.node, d);
  }

  // ---------- It does happen ----------

  lemma OneMoreStep(all: seq<Both>, steps: seq<Step>, s: Step) returns (all': seq<Both>, steps': seq<Step>)
    requires IsRun(all, steps) && Enabled(all[|steps|], s)
    ensures IsRun(all', steps') && all'[|steps'|] == Next(all[|steps|], s)
  {
    all', steps' := all + [Next(all[|steps|], s)], steps + [s];
    forall i | 0 <= i < |steps'| ensures StepAt(all', steps', i) {
      if i < |steps| {
        assert StepAt(all, steps, i);
      }
    }
  }

  lemma ReservedHappens(slot: C.Slot, message: C.Message, pasteOf: Pastes)
    returns (all: seq<Both>, steps: seq<Step>)
    requires slot.id == message.id && message.problem == None
    ensures IsRun(all, steps)
    ensures var b := all[|steps|];
            && b == Both(b.hub, map[], {}, [], N.NEW_NODE, pasteOf) && b.hub.sends == [] && b.hub.replies == []
            && b.hub.tasks == map[0 := C.Task(slot, message, C.Reserved)]
  {
    all, steps := [Both(C.NEW_HUB, map[], {}, [], N.NEW_NODE, pasteOf)], [];
    all, steps := OneMoreStep(all, steps, AtHub(C.Submit(0, slot, message)));
    all, steps := OneMoreStep(all, steps, AtHub(C.Insert(0, true, "")));
  }

  /** Any message can be submitted, and its request sent. */
  lemma SentHappens(slot: C.Slot, message: C.Message, pasteOf: Pastes)
    returns (all: seq<Both>, steps: seq<Step>)
    requires slot.id == message.id && message.problem == None
    ensures IsRun(all, steps)
    ensures var b := all[|steps|];
            && b.pasteOf == pasteOf && b.node == N.NEW_NODE && b.requests == [Underway]
            && b.waits == map[0 := 0] && b.pending == {0}
            && b.hub.sends == [C.Sent(slot, message)] && b.hub.replies == []
            && b.hub.tasks == map[0 := C.Task(slot, message, C.Waiting)]
  {
    all, steps := ReservedHappens(slot, message, pasteOf);
    all, steps := OneMoreStep(all, steps, AtHub(C.Decide(0, C.Open)));
    all, steps := OneMoreStep(all, steps, SendGoes(0));
  }

  /** A node takes it into a queue. */
  lemma QueuedHappens(was: seq<Both>, before: seq<Step>, attach: string)
    returns (all: seq<Both>, steps: seq<Step>)
    requires IsRun(was, before)
    requires var b := was[|before|]; b.node == N.NEW_NODE && b.requests == [Underway] && |b.hub.sends| == 1
    ensures IsRun(all, steps)
    ensures var b := was[|before|];
            var paste := b.pasteOf(0, b.hub.sends[0].message);
            && all[|steps|] == b.(requests := [Called], node := all[|steps|].node)
            && all[|steps|].node.lines == map[0 := A.NEW_LINE.(pushed := [A.Composer(0, paste)])]
            && all[|steps|].node.calls == map[0 := N.Call(paste, Some(0), true, None)]
  {
    all, steps := OneMoreStep(was, before, AtNode(N.OpenAttach(attach, 0)));
    all, steps := OneMoreStep(all, steps, Call(0, attach));
    all, steps := OneMoreStep(all, steps, AtNode(N.PushCall(0)));
    assert all[|steps|].requests == [Called];
    assert all[|steps|].node.lines[0].pushed ==
           [A.Composer(0, was[|before|].pasteOf(0, was[|before|].hub.sends[0].message))];
  }

  /** The node writes it and reports it delivered. */
  lemma WrittenHappens(was: seq<Both>, before: seq<Step>, paste: string, detail: string)
    returns (all: seq<Both>, steps: seq<Step>)
    requires IsRun(was, before) && was[|before|].requests == [Called]
    requires was[|before|].node.lines == map[0 := A.NEW_LINE.(pushed := [A.Composer(0, paste)])]
    requires was[|before|].node.calls == map[0 := N.Call(paste, Some(0), true, None)]
    ensures IsRun(all, steps)
    ensures all[|steps|] ==
            was[|before|].(requests := [Back(C.Receipt(C.Delivered, detail))], node := all[|steps|].node)
  {
    all, steps := OneMoreStep(was, before, AtNode(N.Work(0, A.Luck(|paste|, true, |A.ENTER|, true, true))));
    all, steps := OneMoreStep(all, steps, AtNode(N.Hear(0)));
    all, steps := OneMoreStep(all, steps, Report(0, detail));
  }

  /** Any message can be answered Delivered. */
  lemma DeliveredHappens(slot: C.Slot, message: C.Message, pasteOf: Pastes, attach: string, detail: string)
    returns (all: seq<Both>, steps: seq<Step>)
    requires slot.id == message.id && message.problem == None
    ensures IsRun(all, steps) && all[|steps|].pasteOf == pasteOf
    ensures C.Reply(slot, message, C.Receipt(C.Delivered, detail)) in all[|steps|].hub.replies
  {
    all, steps := SentHappens(slot, message, pasteOf);
    all, steps := QueuedHappens(all, steps, attach);
    all, steps := WrittenHappens(all, steps, pasteOf(0, message), detail);
    all, steps := OneMoreStep(all, steps, HearBack(0));
    all, steps := OneMoreStep(all, steps, AtHub(C.Save(0, true)));
    all, steps := OneMoreStep(all, steps, AtHub(C.Answer(0)));
  }
}
