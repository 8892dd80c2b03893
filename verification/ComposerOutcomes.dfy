/**
  What the hub decides about a message is what came of its request, and that is what the node said: over any
  run of hub, request and node, told from the steps alone (crates/hub/src/composer.rs,
  crates/hub/src/machine_manager.rs, crates/machine/src/hub_conn.rs).
*/
module ComposerOutcomes {
  import opened Wrappers
  import opened ComposerEndToEnd
  import C = Composer
  import I = ComposerInvariant
  import N = AttachCalls

  /** The status that says what a call returned. */
  predicate Says(status: C.Status, v: N.Verdict) {
    (status == C.Delivered <==> v == N.Done) && (status == C.Failed <==> v == N.Failed)
  }

  /** A step that ends the request of dispatch `d` with `r`: it was never sent, nothing came of preparing it,
      or its call returned. */
  ghost predicate Brings(b: Both, s: Step, d: nat, r: C.Receipt)
    requires Enabled(b, s)
  {
    match s
    case SendFails(t, error) => b.waits[t] == d && r == C.Receipt(C.Failed, error)
    case CannotPrepare(e, error) => e == d && r == C.Receipt(C.Failed, error)
    case Report(e, detail) => e == d && r.detail == detail && Says(r.status, b.node.calls[e].verdict.value)
    case _ => false
  }

  ghost predicate CameBack(all: seq<Both>, steps: seq<Step>, n: nat, d: nat, r: C.Receipt)
    requires |all| == |steps| + 1 && n <= |steps|
  {
    exists i :: 0 <= i < n && StepAt(all, steps, i) && Brings(all[i], steps[i], d, r)
  }

  ghost predicate IsBack(b: Both, d: nat, r: C.Receipt) { d < |b.requests| && b.requests[d] == Back(r) }

  lemma BackStep(b: Both, s: Step, d: nat, r: C.Receipt)
    requires Enabled(b, s)
    ensures IsBack(Next(b, s), d, r) <==> IsBack(b, d, r) || Brings(b, s, d, r)
  {
  }

  /** An answered request holds exactly what came back, and only one thing does. */
  lemma {:induction false} BackIff(all: seq<Both>, steps: seq<Step>, n: nat, d: nat, r: C.Receipt)
    requires IsRun(all, steps) && n <= |steps|
    ensures IsBack(all[n], d, r) <==> CameBack(all, steps, n, d, r)
    decreases n
  {
    if n > 0 {
      assert StepAt(all, steps, n - 1);
      BackIff(all, steps, n - 1, d, r);
      BackStep(all[n - 1], steps[n - 1], d, r);
    }
  }

  lemma ComesBackOnce(all: seq<Both>, steps: seq<Step>, n: nat, d: nat, r: C.Receipt, r': C.Receipt)
    requires IsRun(all, steps) && n <= |steps| && CameBack(all, steps, n, d, r) && CameBack(all, steps, n, d, r')
    ensures r == r'
  {
    BackIff(all, steps, n, d, r);
    BackIff(all, steps, n, d, r');
  }

  /** The call of `submit` for `slot` is the one a step is about. */
  ghost predicate For(b: Both, t: nat, slot: C.Slot) { t in b.hub.tasks && b.hub.tasks[t].slot == slot }

  /** Step `i` decides `r` about `slot`: the gate refused, the request could not be sent, its answer was heard,
      or nobody answered in time. */
  ghost predicate Decides(all: seq<Both>, steps: seq<Step>, i: nat, slot: C.Slot, r: C.Receipt)
    requires |all| == |steps| + 1 && i < |steps|
  {
    match steps[i]
    case AtHub(Decide(t, NoControl)) => For(all[i], t, slot) && r == C.NO_CONTROL
    case AtHub(Decide(t, OldNode)) => For(all[i], t, slot) && r == C.OLD_NODE
    case SendFails(t, error) => For(all[i], t, slot) && r == C.Receipt(C.Failed, error)
    case HearBack(t) =>
      && For(all[i], t, slot) && t in all[i].waits && CameBack(all, steps, i, all[i].waits[t], r)
      && all[i].waits[t] < |all[i].hub.sends| && all[i].hub.sends[all[i].waits[t]].slot == slot
    case TimeOut(t) => For(all[i], t, slot) && r == UNCONFIRMED
    case _ => false
  }

  /** What a step is at the hub, if anything. */
  ghost function HubStep(b: Both, s: Step): Option<C.Step>
    requires Enabled(b, s)
  {
    match s
    case AtHub(step) => Some(step)
    case SendFails(t, error) => Some(C.Hear(t, C.Receipt(C.Failed, error)))
    case HearBack(t) => Some(C.Hear(t, b.requests[b.waits[t]].receipt))
    case TimeOut(t) => Some(C.Hear(t, UNCONFIRMED))
    case _ => None
  }

  lemma HubMoves(b: Both, s: Step)
    requires Enabled(b, s)
    ensures match HubStep(b, s)
            case None => Next(b, s).hub == b.hub
            case Some(step) => C.Enabled(b.hub, step) && Next(b, s).hub == C.Next(b.hub, step)
  {
  }

  lemma HubDecidesIff(h: C.Hub, step: C.Step, slot: C.Slot, r: C.Receipt)
    requires I.Safe(h) && C.Enabled(h, step)
    ensures DecidedFor(C.Next(h, step), slot, r) <==>
              || DecidedFor(h, slot, r)
              || (!step.Crash? && !step.Submit? && h.tasks[step.task].slot == slot &&
                  match step
                  case Hear(_, outcome) => r == outcome
                  case Decide(_, NoControl) => r == C.NO_CONTROL
                  case Decide(_, OldNode) => r == C.OLD_NODE
                  case _ => false)
  {
    if !step.Crash? && !step.Submit? {
      assert I.TaskOk(h, step.task);
    }
  }

  lemma DecidesIff(all: seq<Both>, steps: seq<Step>, i: nat, slot: C.Slot, r: C.Receipt)
    requires IsRun(all, steps) && i < |steps|
    ensures DecidedFor(all[i + 1].hub, slot, r) <==> DecidedFor(all[i].hub, slot, r) || Decides(all, steps, i, slot, r)
  {
    RunIsSafe(all, steps, i);
    assert StepAt(all, steps, i);
    HubMoves(all[i], steps[i]);
    var step := HubStep(all[i], steps[i]);
    if step.Some? {
      HubDecidesIff(all[i].hub, step.value, slot, r);
    }
    if steps[i].HearBack? {
      BackIff(all, steps, i, all[i].waits[steps[i].task], r);
    }
  }

  ghost predicate WasDecided(all: seq<Both>, steps: seq<Step>, n: nat, slot: C.Slot, r: C.Receipt)
    requires |all| == |steps| + 1 && n <= |steps|
  {
    exists i: nat :: i < n && Decides(all, steps, i, slot, r)
  }

  /** The hub holds exactly what such a step decided, and no second step decides otherwise. */
  lemma {:induction false} DecidedIff(all: seq<Both>, steps: seq<Step>, n: nat, slot: C.Slot, r: C.Receipt)
    requires IsRun(all, steps) && n <= |steps|
    ensures DecidedFor(all[n].hub, slot, r) <==> WasDecided(all, steps, n, slot, r)
    decreases n
  {
    if n > 0 {
      DecidedIff(all, steps, n - 1, slot, r);
      DecidesIff(all, steps, n - 1, slot, r);
    }
  }

  /** Whoever is answered Delivered or Failed is answered what was decided so. */
  lemma AnsweredAsDecided(all: seq<Both>, steps: seq<Step>, n: nat, r: C.Reply)
    requires IsRun(all, steps) && n <= |steps| && r in all[n].hub.replies
    requires r.message.problem == None && r.receipt.status != C.Unknown
    ensures WasDecided(all, steps, n, r.slot, r.receipt)
  {
    RunIsSafe(all, steps, n);
    assert I.ReplyOk(all[n].hub.fates, r);
    DecidedIff(all, steps, n, r.slot, r.receipt);
  }
}
