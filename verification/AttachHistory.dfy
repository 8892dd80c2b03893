/**
  What a node's attaches are after any run, told from what happened: which name means which attach, what each
  channel accepted, and what every call is answered.
*/
module AttachHistory {
  import opened Wrappers
  import opened Attach
  import opened AttachCalls

  /** The attach `name` means: the newest opened under it and not closed since. */
  function Named(steps: seq<Step>, n: nat, name: string): Option<nat>
    requires n <= |steps|
  {
    if n == 0 then None
    else
      match steps[n - 1]
      case OpenAttach(attach, line) => if attach == name then Some(line) else Named(steps, n - 1, name)
      case Close(attach) => if attach == name then None else Named(steps, n - 1, name)
      case CloseAll => None
      case _ => Named(steps, n - 1, name)
  }

  function Opened(steps: seq<Step>, n: nat, id: nat): bool
    requires n <= |steps|
  {
    n > 0 && ((steps[n - 1].OpenAttach? && steps[n - 1].line == id) || Opened(steps, n - 1, id))
  }

  /** The child was reaped, so the channel is gone. */
  function Reaped(steps: seq<Step>, n: nat, id: nat): bool
    requires n <= |steps|
  {
    n > 0 && (steps[n - 1] == Reap(id) || Reaped(steps, n - 1, id))
  }

  /** The call as it was begun: its paste, and the attach its name meant then. */
  function Begun(steps: seq<Step>, n: nat, c: nat): Option<(string, Option<nat>)>
    requires n <= |steps|
  {
    if n == 0 then None
    else if steps[n - 1].BeginCall? && steps[n - 1].call == c then
      Some((steps[n - 1].paste, Named(steps, n - 1, steps[n - 1].attach)))
    else Begun(steps, n - 1, c)
  }

  /** What the channel of attach `id` accepted, in order. */
  function Accepted(steps: seq<Step>, n: nat, id: nat): seq<Command>
    requires n <= |steps|
  {
    if n == 0 then []
    else
      var before := Accepted(steps, n - 1, id);
      match steps[n - 1]
      case Feed(line, command) => if line == id then before + [command] else before
      case PushCall(c) =>
        var call := Begun(steps, n - 1, c);
        if call.Some? && call.value.1 == Some(id) && !Reaped(steps, n - 1, id)
        then before + [Composer(c, call.value.0)] else before
      case _ => before
  }

  /** How many of them were handled. */
  function Handlings(steps: seq<Step>, n: nat, id: nat): nat
    requires n <= |steps|
  {
    if n == 0 then 0
    else Handlings(steps, n - 1, id) + if steps[n - 1].Work? && steps[n - 1].line == id then 1 else 0
  }

  /** Step `i` took the paste of call `c` from the queue. */
  predicate Takes(steps: seq<Step>, i: nat, id: nat, c: nat)
    requires i < |steps|
  {
    && steps[i].Work? && steps[i].line == id
    && Handlings(steps, i, id) < |Accepted(steps, i, id)|
    && var command := Accepted(steps, i, id)[Handlings(steps, i, id)]; command.Composer? && command.call == c
  }

  /** Whether call `c` was told by its writer, and if all of it was written and flushed. */
  ghost function Acknowledged(steps: seq<Step>, n: nat, id: nat, c: nat): Option<bool>
    requires n <= |steps|
  {
    if n == 0 then None
    else if Takes(steps, n - 1, id, c) then
      Some(WentWell(Accepted(steps, n - 1, id)[Handlings(steps, n - 1, id)], steps[n - 1].luck))
    else Acknowledged(steps, n - 1, id, c)
  }

  /** What a call is answered: Failed when its name means nothing or the channel is gone; Ok when it hears that
      its paste was handled well; Unknown when it hears otherwise, or nothing. */
  ghost function Answered(steps: seq<Step>, n: nat, c: nat): Option<Verdict>
    requires n <= |steps|
  {
    if n == 0 then None
    else
      match steps[n - 1]
      case BeginCall(call, attach, _) =>
        if call != c then Answered(steps, n - 1, c)
        else if Named(steps, n - 1, attach) == None then Some(Failed)
        else None
      case PushCall(call) =>
        var begun := Begun(steps, n - 1, c);
        if call == c && begun.Some? && begun.value.1.Some? && Reaped(steps, n - 1, begun.value.1.value)
        then Some(Failed) else Answered(steps, n - 1, c)
      case Hear(call) =>
        var begun := Begun(steps, n - 1, c);
        if call != c then Answered(steps, n - 1, c)
        else if begun.Some? && begun.value.1.Some?
                && Acknowledged(steps, n - 1, begun.value.1.value, c) == Some(true) then Some(Done)
        else Some(Unknown)
      case GiveUp(call) => if call == c then Some(Unknown) else Answered(steps, n - 1, c)
      case _ => Answered(steps, n - 1, c)
  }

  lemma {:induction false} HandlesAreNamed(nodes: seq<Node>, steps: seq<Step>, n: nat, name: string)
    requires IsRun(nodes, steps) && n <= |steps|
    ensures Named(steps, n, name) == if name in nodes[n].handles then Some(nodes[n].handles[name]) else None
  {
    if n > 0 {
      HandlesAreNamed(nodes, steps, n - 1, name);
      assert StepAt(nodes, steps, n - 1);
    }
  }

  lemma {:induction false} CallsAreBegun(nodes: seq<Node>, steps: seq<Step>, n: nat, c: nat)
    requires IsRun(nodes, steps) && n <= |steps|
    ensures Begun(steps, n, c) ==
            if c in nodes[n].calls then Some((nodes[n].calls[c].paste, nodes[n].calls[c].line)) else None
  {
    if n > 0 {
      CallsAreBegun(nodes, steps, n - 1, c);
      assert StepAt(nodes, steps, n - 1);
      if steps[n - 1].BeginCall? {
        HandlesAreNamed(nodes, steps, n - 1, steps[n - 1].attach);
      }
    }
  }

  /** What one step does to one attach. */
  lemma LineMoves(n: Node, s: Step, id: nat)
    requires Enabled(n, s)
    ensures id in Next(n, s).lines <==> id in n.lines || (s.OpenAttach? && s.line == id)
    ensures s.OpenAttach? && s.line == id ==>
              id !in n.lines && Next(n, s).lines[id].pushed == [] && Next(n, s).lines[id].log == []
              && Next(n, s).lines[id].open && Next(n, s).lines[id].running && Next(n, s).lines[id].acks == map[]
    ensures id in n.lines ==>
              var l, m := n.lines[id], Next(n, s).lines[id];
              && m.pushed == l.pushed +
                   (if s.Feed? && s.line == id then [s.command]
                    else if s.PushCall? && n.calls[s.call].line == Some(id) && l.open
                    then [Composer(s.call, n.calls[s.call].paste)] else [])
              && (m.open <==> l.open && s != Reap(id))
              && |m.log| == |l.log| + (if s.Work? && s.line == id then 1 else 0)
              && (s.Feed? && s.line == id ==> l.open)
    ensures id in n.lines ==>
              var l, m := n.lines[id], Next(n, s).lines[id];
              && (s.Work? && s.line == id ==> |l.log| < |l.pushed|)
              && m.acks == if s.Work? && s.line == id && l.pushed[|l.log|].Composer?
                           then l.acks[l.pushed[|l.log|].call := WentWell(l.pushed[|l.log|], s.luck)] else l.acks
  {
  }

  ghost predicate LineSays(nodes: seq<Node>, steps: seq<Step>, n: nat, id: nat)
    requires |nodes| == |steps| + 1 && n <= |steps|
  {
    && (id in nodes[n].lines <==> Opened(steps, n, id))
    && (id !in nodes[n].lines ==>
          Accepted(steps, n, id) == [] && Handlings(steps, n, id) == 0 && !Reaped(steps, n, id))
    && (id in nodes[n].lines ==>
          var l := nodes[n].lines[id];
          && l.pushed == Accepted(steps, n, id) && |l.log| == Handlings(steps, n, id)
          && (l.open <==> !Reaped(steps, n, id)))
  }

  /** Over every run: an attach has been given exactly what its channel accepted while it existed. */
  lemma {:induction false} QueueIsAccepted(nodes: seq<Node>, steps: seq<Step>, n: nat, id: nat)
    requires IsRun(nodes, steps) && n <= |steps|
    ensures LineSays(nodes, steps, n, id)
    decreases n
  {
    if n > 0 {
      QueueIsAccepted(nodes, steps, n - 1, id);
      StepOfRun(nodes, steps, n - 1);
      LineMoves(nodes[n - 1], steps[n - 1], id);
      if steps[n - 1].PushCall? {
        CallsAreBegun(nodes, steps, n - 1, steps[n - 1].call);
      }
    }
  }

  /** And its writer has told exactly the calls whose paste it took, and truly. */
  lemma {:induction false} AcksAreTold(nodes: seq<Node>, steps: seq<Step>, n: nat, id: nat, c: nat)
    requires IsRun(nodes, steps) && n <= |steps|
    ensures Acknowledged(steps, n, id, c) ==
            if id in nodes[n].lines && c in nodes[n].lines[id].acks then Some(nodes[n].lines[id].acks[c]) else None
    decreases n
  {
    if n > 0 {
      AcksAreTold(nodes, steps, n - 1, id, c);
      QueueIsAccepted(nodes, steps, n - 1, id);
      assert StepAt(nodes, steps, n - 1);
      LineMoves(nodes[n - 1], steps[n - 1], id);
    }
  }

  lemma VerdictMoves(n: Node, s: Step, c: nat)
    requires Enabled(n, s) && c in Next(n, s).calls
    ensures c in n.calls || (s.BeginCall? && s.call == c)
    ensures Next(n, s).calls[c].verdict ==
            if s.BeginCall? && s.call == c then if s.attach in n.handles then None else Some(Failed)
            else if s.PushCall? && s.call == c && !n.lines[n.calls[c].line.value].open then Some(Failed)
            else if s.Hear? && s.call == c then Some(if n.lines[n.calls[c].line.value].acks[c] then Done else Unknown)
            else if s.GiveUp? && s.call == c then Some(Unknown)
            else n.calls[c].verdict
  {
  }

  /** Over every run: what each call is answered. */
  lemma {:induction false} AnsweredExactly(nodes: seq<Node>, steps: seq<Step>, n: nat, c: nat)
    requires IsRun(nodes, steps) && n <= |steps| && c in nodes[n].calls
    ensures nodes[n].calls[c].verdict == Answered(steps, n, c)
    decreases n
  {
    if n > 0 {
      var s := steps[n - 1];
      assert StepAt(nodes, steps, n - 1);
      VerdictMoves(nodes[n - 1], s, c);
      CallsAreBegun(nodes, steps, n - 1, c);
      if c in nodes[n - 1].calls {
        AnsweredExactly(nodes, steps, n - 1, c);
        if (s.PushCall? || s.Hear?) && s.call == c {
          QueueIsAccepted(nodes, steps, n - 1, nodes[n - 1].calls[c].line.value);
          AcksAreTold(nodes, steps, n - 1, nodes[n - 1].calls[c].line.value, c);
        }
      } else {
        HandlesAreNamed(nodes, steps, n - 1, s.attach);
      }
    }
  }

  /** And what is in the PTY: every command the writer took, whole but for the last one of a writer that
      stopped. */
  lemma WrittenIsAccepted(nodes: seq<Node>, steps: seq<Step>, n: nat, id: nat, i: nat)
    requires IsRun(nodes, steps) && n <= |steps| && id in nodes[n].lines && i < |nodes[n].lines[id].log|
    ensures |nodes[n].lines[id].log| == Handlings(steps, n, id) <= |Accepted(steps, n, id)|
    ensures var whole := match Accepted(steps, n, id)[i]
                         case Composer(_, paste) => paste + "\r"
                         case Input(chunk) => chunk
                         case Resize => ""
                         case Refresh => "";
            var written := nodes[n].lines[id].log[i];
            if nodes[n].lines[id].running || i + 1 < Handlings(steps, n, id) then written == whole else written <= whole
  {
    WholeAndInOrder(nodes, steps, n, id);
    QueueIsAccepted(nodes, steps, n, id);
  }

  /** How many bytes of a command get into the PTY: what its writes take, and the Enter only after a paste taken
      whole and flushed. */
  function Taken(c: Command, luck: Luck): nat {
    match c
    case Composer(_, paste) =>
      if luck.taken < |paste| then luck.taken
      else if luck.flushed && luck.enterTaken > 0 then |paste| + 1
      else |paste|
    case Input(chunk) => if luck.taken < |chunk| then luck.taken else |chunk|
    case Resize => 0
    case Refresh => 0
  }

  lemma PutIsTaken(c: Command, luck: Luck)
    ensures |Put(c, luck)| == Taken(c, luck) <= |Meant(c)| && Put(c, luck) == Meant(c)[..Taken(c, luck)]
  {
  }

  /** Over every run: each time a writer works, exactly the bytes its writes take are added to the PTY. */
  lemma TakenIsWritten(nodes: seq<Node>, steps: seq<Step>, n: nat)
    requires IsRun(nodes, steps) && n < |steps| && steps[n].Work?
    ensures var id := steps[n].line;
            && id in nodes[n].lines && id in nodes[n + 1].lines && Handlings(steps, n, id) < |Accepted(steps, n, id)|
            && var c := Accepted(steps, n, id)[Handlings(steps, n, id)];
               var whole := match c
                            case Composer(_, paste) => paste + "\r"
                            case Input(chunk) => chunk
                            case Resize => ""
                            case Refresh => "";
               && Taken(c, steps[n].luck) <= |whole|
               && Stream(nodes[n + 1].lines[id].log)
                  == Stream(nodes[n].lines[id].log) + whole[..Taken(c, steps[n].luck)]
  {
    var id, luck := steps[n].line, steps[n].luck;
    StepOfRun(nodes, steps, n);
    QueueIsAccepted(nodes, steps, n, id);
    var l := nodes[n].lines[id];
    var c := l.pushed[|l.log|];
    PutIsTaken(c, luck);
    assert nodes[n + 1].lines[id].log == l.log + [Put(c, luck)];
    assert (l.log + [Put(c, luck)])[..|l.log|] == l.log;
  }
}
