/**
  Composer calls against the writers of a node, over any run of opening, closing, calling, typing and
  failing, with any number of calls and attaches at once.
*/
module AttachCalls {
  import opened Wrappers
  import opened Attach

  datatype Verdict = Done | Failed | Unknown

  /** One call of `write_composer`: the attach it found, whether its command was accepted, and what it
      returned. */
  datatype Call = Call(paste: string, line: Option<nat>, pushed: bool, verdict: Option<Verdict>)

  /** `handles` is the manager's map; `lines` are all attaches ever opened. */
  datatype Node = Node(handles: map<string, nat>, lines: map<nat, Line>, calls: map<nat, Call>)

  datatype Step =
    | OpenAttach(attach: string, line: nat)
    | Close(attach: string)
    | CloseAll
    | BeginCall(call: nat, attach: string, paste: string)
    | PushCall(call: nat)
    | Feed(line: nat, command: Command)
    | Work(line: nat, luck: Luck)
    | Stop(line: nat)
    | Reap(line: nat)
    | Hear(call: nat)
    | GiveUp(call: nat)

  const NEW_NODE := Node(map[], map[], map[])

  ghost predicate Enabled(n: Node, s: Step) {
    match s
    case OpenAttach(_, line) => line !in n.lines
    case Close(_) => true
    case CloseAll => true
    case BeginCall(c, _, _) => c !in n.calls
    case PushCall(c) =>
      && c in n.calls && n.calls[c].verdict == None && !n.calls[c].pushed
      && n.calls[c].line.Some? && n.calls[c].line.value in n.lines
    case Feed(l, command) => l in n.lines && n.lines[l].open && !command.Composer?
    case Work(l, _) => l in n.lines && Busy(n.lines[l])
    case Stop(l) => l in n.lines
    case Reap(l) => l in n.lines && !n.lines[l].running
    case Hear(c) =>
      && c in n.calls && n.calls[c].verdict == None && n.calls[c].pushed
      && n.calls[c].line.Some? && n.calls[c].line.value in n.lines
      && c in n.lines[n.calls[c].line.value].acks
    case GiveUp(c) => c in n.calls && n.calls[c].verdict == None && n.calls[c].pushed
  }

  function Returned(n: Node, c: nat, v: Verdict): Node
    requires c in n.calls
  {
    n.(calls := n.calls[c := n.calls[c].(verdict := Some(v))])
  }

  function Pushed(l: Line, c: Command): Line { l.(pushed := l.pushed + [c]) }

  /** A failed spawn, the end of its senders, and the death of the process stop a writer, as a failed
      write does. Until its child is reaped the channel still accepts commands, which are dropped. */
  ghost function Next(n: Node, s: Step): Node
    requires Enabled(n, s)
  {
    match s
    case OpenAttach(attach, line) => n.(handles := n.handles[attach := line], lines := n.lines[line := NEW_LINE])
    case Close(attach) => n.(handles := n.handles - {attach})
    case CloseAll => n.(handles := map[])
    case BeginCall(c, attach, paste) =>
      if attach in n.handles then n.(calls := n.calls[c := Call(paste, Some(n.handles[attach]), false, None)])
      else n.(calls := n.calls[c := Call(paste, None, false, Some(Failed))])
    case PushCall(c) =>
      var call := n.calls[c];
      var l := n.lines[call.line.value];
      if !l.open then Returned(n, c, Failed)
      else
        n.(lines := n.lines[call.line.value := Pushed(l, Composer(c, call.paste))],
           calls := n.calls[c := call.(pushed := true)])
    case Feed(l, command) => n.(lines := n.lines[l := Pushed(n.lines[l], command)])
    case Work(l, luck) => n.(lines := n.lines[l := Worked(n.lines[l], luck)])
    case Stop(l) => n.(lines := n.lines[l := n.lines[l].(running := false)])
    case Reap(l) => n.(lines := n.lines[l := n.lines[l].(open := false)])
    case Hear(c) => Returned(n, c, if n.lines[n.calls[c].line.value].acks[c] then Done else Unknown)
    case GiveUp(c) => Returned(n, c, Unknown)
  }

  /** Handled in order and whole, except perhaps the last one of a writer that stopped. */
  ghost predicate InOrderAndWhole(l: Line) {
    && |l.log| <= |l.pushed|
    && forall i :: 0 <= i < |l.log| ==>
         && l.log[i] <= Meant(l.pushed[i])
         && (l.running || i + 1 < |l.log| ==> l.log[i] == Meant(l.pushed[i]))
  }

  /** Command `i` is the paste of call `c`, and it was handled. */
  ghost predicate Handled(l: Line, i: int, c: nat) {
    0 <= i < |l.log| && i < |l.pushed| && l.pushed[i].Composer? && l.pushed[i].call == c
  }

  /** An acknowledgement follows the handling, and a positive one only when all of it is in the PTY. */
  ghost predicate AcksAreTrue(l: Line) {
    forall c <- l.acks :: exists i :: Handled(l, i, c) && (l.acks[c] ==> l.log[i] == Meant(l.pushed[i]))
  }

  /** Every accepted paste belongs to one call, whose attach this is. */
  ghost predicate PastesAreCalls(calls: map<nat, Call>, id: nat, l: Line) {
    && (forall i :: 0 <= i < |l.pushed| && l.pushed[i].Composer? ==>
          var c := l.pushed[i].call;
          c in calls && calls[c].pushed && calls[c].line == Some(id) && calls[c].paste == l.pushed[i].paste)
    && (forall i, j :: 0 <= i < j < |l.pushed| && l.pushed[i].Composer? && l.pushed[j].Composer? ==>
          l.pushed[i].call != l.pushed[j].call)
  }

  ghost predicate LineOk(calls: map<nat, Call>, id: nat, l: Line) {
    InOrderAndWhole(l) && AcksAreTrue(l) && PastesAreCalls(calls, id, l)
  }

  ghost predicate CallOk(n: Node, c: nat)
    requires c in n.calls
  {
    var call := n.calls[c];
    && (call.verdict == Some(Failed) ==> !call.pushed)
    && (call.verdict == Some(Done) ==>
          && call.line.Some? && call.line.value in n.lines
          && c in n.lines[call.line.value].acks && n.lines[call.line.value].acks[c])
  }

  /** Every handle, and every call that found one, names an attach. */
  ghost predicate HandlesFound(n: Node) {
    && (forall a <- n.handles :: n.handles[a] in n.lines)
    && (forall c <- n.calls :: n.calls[c].line.Some? ==> n.calls[c].line.value in n.lines)
  }

  ghost predicate Safe(n: Node) {
    && HandlesFound(n)
    && (forall id <- n.lines :: LineOk(n.calls, id, n.lines[id]))
    && (forall c <- n.calls :: CallOk(n, c))
  }

  lemma WorkKeepsAcksTrue(l: Line, luck: Luck)
    requires AcksAreTrue(l) && Busy(l)
    ensures AcksAreTrue(Worked(l, luck))
  {
    var m := Worked(l, luck);
    var k := |l.log|;
    forall c <- m.acks ensures exists i :: Handled(m, i, c) && (m.acks[c] ==> m.log[i] == Meant(m.pushed[i])) {
      if l.pushed[k].Composer? && c == l.pushed[k].call {
        assert Handled(m, k, c);
      } else {
        var i :| Handled(l, i, c) && (l.acks[c] ==> l.log[i] == Meant(l.pushed[i]));
        assert Handled(m, i, c) && m.log[i] == l.log[i];
      }
    }
  }

  lemma WorkKeepsLineOk(calls: map<nat, Call>, id: nat, l: Line, luck: Luck)
    requires LineOk(calls, id, l) && Busy(l)
    ensures LineOk(calls, id, Worked(l, luck))
  {
    var m := Worked(l, luck);
    assert forall i :: 0 <= i < |l.log| ==> m.log[i] == l.log[i];
    WorkKeepsAcksTrue(l, luck);
  }

  lemma PushKeepsLineOk(calls: map<nat, Call>, id: nat, l: Line, command: Command)
    requires LineOk(calls, id, l)
    requires command.Composer? ==>
               var c := command.call;
               && c in calls && calls[c].pushed && calls[c].line == Some(id) && calls[c].paste == command.paste
               && forall i :: 0 <= i < |l.pushed| && l.pushed[i].Composer? ==> l.pushed[i].call != c
    ensures LineOk(calls, id, Pushed(l, command))
  {
    var m := Pushed(l, command);
    assert forall i :: 0 <= i < |l.pushed| ==> m.pushed[i] == l.pushed[i];
    forall c <- m.acks ensures exists i :: Handled(m, i, c) && (m.acks[c] ==> m.log[i] == Meant(m.pushed[i])) {
      var i :| Handled(l, i, c) && (l.acks[c] ==> l.log[i] == Meant(l.pushed[i]));
      assert Handled(m, i, c);
    }
  }

  /** Calls only gain an acceptance or a verdict. */
  ghost predicate Progressed(was: map<nat, Call>, now: map<nat, Call>) {
    forall c <- was ::
      && c in now && now[c].paste == was[c].paste && now[c].line == was[c].line
      && (was[c].pushed ==> now[c].pushed)
      && (was[c].verdict.Some? ==> now[c].verdict == was[c].verdict && now[c].pushed == was[c].pushed)
  }

  lemma ProgressKeepsLineOk(was: map<nat, Call>, now: map<nat, Call>, id: nat, l: Line)
    requires LineOk(was, id, l) && Progressed(was, now)
    ensures LineOk(now, id, l)
  {
  }

  /** A writer only goes forward, and once stopped it writes and acknowledges nothing more. */
  ghost predicate Advanced(was: Line, now: Line) {
    && was.pushed <= now.pushed && was.log <= now.log
    && (forall c <- was.acks :: c in now.acks && now.acks[c] == was.acks[c])
    && (!was.running ==> !now.running && now.log == was.log && now.acks == was.acks)
  }

  lemma StepProgresses(n: Node, s: Step)
    requires Enabled(n, s)
    ensures Progressed(n.calls, Next(n, s).calls)
  {
  }

  lemma LineStaysOk(n: Node, s: Step, id: nat)
    requires Enabled(n, s) && id in Next(n, s).lines && (id in n.lines ==> LineOk(n.calls, id, n.lines[id]))
    requires Progressed(n.calls, Next(n, s).calls)
    ensures LineOk(Next(n, s).calls, id, Next(n, s).lines[id])
  {
    var m := Next(n, s);
    if id in n.lines {
      ProgressKeepsLineOk(n.calls, m.calls, id, n.lines[id]);
      if s.Work? && s.line == id {
        WorkKeepsLineOk(m.calls, id, n.lines[id], s.luck);
      } else if s.Feed? && s.line == id {
        PushKeepsLineOk(m.calls, id, n.lines[id], s.command);
      } else if s.PushCall? && m.lines[id] != n.lines[id] {
        PushKeepsLineOk(m.calls, id, n.lines[id], Composer(s.call, n.calls[s.call].paste));
      }
    }
  }

  lemma WorkAdvances(calls: map<nat, Call>, id: nat, l: Line, luck: Luck)
    requires LineOk(calls, id, l) && Busy(l)
    ensures Advanced(l, Worked(l, luck))
  {
    forall c <- l.acks ensures Worked(l, luck).acks[c] == l.acks[c] {
      var i :| Handled(l, i, c);
      assert l.pushed[i].call == c;
    }
  }

  lemma PushAdvances(l: Line, command: Command)
    ensures Advanced(l, Pushed(l, command))
  {
  }

  lemma ClosingAdvances(l: Line)
    ensures Advanced(l, l) && Advanced(l, l.(running := false)) && Advanced(l, l.(open := false))
  {
  }

  lemma LinesAdvance(n: Node, s: Step, id: nat)
    requires id in n.lines && LineOk(n.calls, id, n.lines[id]) && Enabled(n, s)
    ensures id in Next(n, s).lines && Advanced(n.lines[id], Next(n, s).lines[id])
  {
    var l := n.lines[id];
    if s.Work? && s.line == id {
      WorkAdvances(n.calls, id, l, s.luck);
    } else if s.Feed? && s.line == id {
      PushAdvances(l, s.command);
    } else if s.PushCall? && Next(n, s).lines[id] != l {
      PushAdvances(l, Composer(s.call, n.calls[s.call].paste));
    } else {
      ClosingAdvances(l);
    }
  }

  lemma CallStaysOk(n: Node, s: Step, c: nat)
    requires Safe(n) && Enabled(n, s) && c in n.calls
    ensures c in Next(n, s).calls && CallOk(Next(n, s), c)
  {
    assert CallOk(n, c);
    var call := n.calls[c];
    if call.line.Some? && call.line.value in n.lines {
      LinesAdvance(n, s, call.line.value);
    }
  }

  lemma HandlesStayFound(n: Node, s: Step)
    requires HandlesFound(n) && Enabled(n, s)
    ensures HandlesFound(Next(n, s))
  {
  }

  /** Every step keeps every promise. */
  lemma StepKeepsSafe(n: Node, s: Step)
    requires Safe(n) && Enabled(n, s)
    ensures Safe(Next(n, s))
  {
    var m := Next(n, s);
    StepProgresses(n, s);
    HandlesStayFound(n, s);
    forall id <- m.lines ensures LineOk(m.calls, id, m.lines[id]) {
      LineStaysOk(n, s, id);
    }
    forall c <- m.calls ensures CallOk(m, c) {
      if c in n.calls {
        CallStaysOk(n, s, c);
      }
    }
  }

  ghost predicate IsRun(nodes: seq<Node>, steps: seq<Step>) {
    && |nodes| == |steps| + 1
    && nodes[0] == NEW_NODE
    && forall i :: 0 <= i < |steps| ==> StepAt(nodes, steps, i)
  }

  ghost predicate StepAt(nodes: seq<Node>, steps: seq<Step>, i: int)
    requires |nodes| == |steps| + 1 && 0 <= i < |steps|
  {
    Enabled(nodes[i], steps[i]) && nodes[i + 1] == Next(nodes[i], steps[i])
  }

  lemma {:induction false} RunIsSafe(nodes: seq<Node>, steps: seq<Step>, k: nat)
    requires IsRun(nodes, steps) && k <= |steps|
    ensures Safe(nodes[k])
    decreases k
  {
    if k > 0 {
      RunIsSafe(nodes, steps, k - 1);
      assert StepAt(nodes, steps, k - 1);
      StepKeepsSafe(nodes[k - 1], steps[k - 1]);
    }
  }

  lemma StepOfRun(nodes: seq<Node>, steps: seq<Step>, i: nat)
    requires IsRun(nodes, steps) && i < |steps|
    ensures Safe(nodes[i]) && Enabled(nodes[i], steps[i]) && nodes[i + 1] == Next(nodes[i], steps[i])
  {
    RunIsSafe(nodes, steps, i);
    assert StepAt(nodes, steps, i);
  }

  lemma PieceOfStream(log: seq<string>, i: nat, paste: string) returns (before: string, after: string)
    requires i < |log| && log[i] == paste + ENTER
    ensures Stream(log) == before + paste + ENTER + after
  {
    before, after := Stream(log[..i]), Stream(log[i + 1..]);
    StreamAround(log, i);
    assert before + (paste + ENTER) + after == before + paste + ENTER + after;
  }

  lemma AckedPiece(calls: map<nat, Call>, id: nat, l: Line, c: nat) returns (i: nat)
    requires LineOk(calls, id, l) && c in l.acks && l.acks[c]
    ensures i < |l.log| && c in calls && l.log[i] == calls[c].paste + ENTER
  {
    i :| Handled(l, i, c) && (l.acks[c] ==> l.log[i] == Meant(l.pushed[i]));
  }

  /** A positive acknowledgement: the paste and its Enter are next to each other in the PTY. */
  lemma AckedIsWritten(n: Node, c: nat) returns (before: string, after: string)
    requires Safe(n) && c in n.calls && n.calls[c].verdict == Some(Done)
    ensures var call := n.calls[c];
            && call.line.Some? && call.line.value in n.lines
            && Stream(n.lines[call.line.value].log) == before + call.paste + ENTER + after
  {
    assert CallOk(n, c);
    var id := n.calls[c].line.value;
    var i := AckedPiece(n.calls, id, n.lines[id], c);
    before, after := PieceOfStream(n.lines[id].log, i, n.calls[c].paste);
  }

  /** Ok means: the paste and its Enter are next to each other in the PTY. */
  lemma DoneIsWritten(nodes: seq<Node>, steps: seq<Step>, k: nat, c: nat) returns (before: string, after: string)
    requires IsRun(nodes, steps) && k <= |steps| && c in nodes[k].calls && nodes[k].calls[c].verdict == Some(Done)
    ensures var call := nodes[k].calls[c];
            && call.line.Some? && call.line.value in nodes[k].lines
            && Stream(nodes[k].lines[call.line.value].log) == before + call.paste + ENTER + after
  {
    RunIsSafe(nodes, steps, k);
    before, after := AckedIsWritten(nodes[k], c);
  }

  /** No attach has, or ever had, anything of this call in its queue or its PTY. */
  ghost predicate Untouched(n: Node, c: nat) {
    forall id <- n.lines :: forall i :: 0 <= i < |n.lines[id].pushed| ==>
      !(n.lines[id].pushed[i].Composer? && n.lines[id].pushed[i].call == c)
  }

  lemma {:induction false} CallsProgress(nodes: seq<Node>, steps: seq<Step>, m: nat, k: nat)
    requires IsRun(nodes, steps) && m <= k <= |steps|
    ensures Progressed(nodes[m].calls, nodes[k].calls)
    decreases k
  {
    if m < k {
      CallsProgress(nodes, steps, m, k - 1);
      StepOfRun(nodes, steps, k - 1);
      StepProgresses(nodes[k - 1], steps[k - 1]);
    }
  }

  lemma NeverPushedIsUntouched(n: Node, c: nat)
    requires Safe(n) && (c in n.calls ==> !n.calls[c].pushed)
    ensures Untouched(n, c)
  {
    forall id <- n.lines ensures LineOk(n.calls, id, n.lines[id]) {}
  }

  /** Failed means: not one byte of it was written, and none ever will be. */
  lemma FailedIsNeverWritten(nodes: seq<Node>, steps: seq<Step>, m: nat, k: nat, c: nat)
    requires IsRun(nodes, steps) && m <= k <= |steps|
    requires c in nodes[m].calls && nodes[m].calls[c].verdict == Some(Failed)
    ensures Untouched(nodes[k], c)
  {
    CallsProgress(nodes, steps, m, k);
    RunIsSafe(nodes, steps, m);
    RunIsSafe(nodes, steps, k);
    assert CallOk(nodes[m], c);
    NeverPushedIsUntouched(nodes[k], c);
  }

  /** Whatever the verdict, all a call ever puts into any PTY is one unbroken start of its paste and
      Enter, in the attach it found. */
  lemma OnePieceOfEachCall(nodes: seq<Node>, steps: seq<Step>, k: nat, c: nat, a: nat, i: nat, b: nat, j: nat)
    requires IsRun(nodes, steps) && k <= |steps| && a in nodes[k].lines && b in nodes[k].lines
    requires Handled(nodes[k].lines[a], i, c) && Handled(nodes[k].lines[b], j, c)
    ensures a == b && i == j
    ensures c in nodes[k].calls && nodes[k].lines[a].log[i] <= nodes[k].calls[c].paste + ENTER
  {
    RunIsSafe(nodes, steps, k);
    assert LineOk(nodes[k].calls, a, nodes[k].lines[a]);
    assert LineOk(nodes[k].calls, b, nodes[k].lines[b]);
  }

  /** Nothing more is written or acknowledged. */
  ghost predicate Still(was: Line, now: Line) { !now.running && now.log == was.log && now.acks == was.acks }

  lemma StillInOneStep(nodes: seq<Node>, steps: seq<Step>, i: nat, id: nat)
    requires IsRun(nodes, steps) && i < |steps| && id in nodes[i].lines && !nodes[i].lines[id].running
    ensures id in nodes[i + 1].lines && Still(nodes[i].lines[id], nodes[i + 1].lines[id])
  {
    StepOfRun(nodes, steps, i);
    LinesAdvance(nodes[i], steps[i], id);
  }

  lemma {:induction false} StoppedIsStill(nodes: seq<Node>, steps: seq<Step>, m: nat, k: nat, id: nat)
    requires IsRun(nodes, steps) && m <= k <= |steps| && id in nodes[m].lines && !nodes[m].lines[id].running
    ensures id in nodes[k].lines && Still(nodes[m].lines[id], nodes[k].lines[id])
    decreases k
  {
    if m < k {
      StoppedIsStill(nodes, steps, m, k - 1, id);
      StillInOneStep(nodes, steps, k - 1, id);
    }
  }

  /** Nothing is written to a PTY after a write to it failed, was cut short, or, for a paste, was not
      flushed. */
  lemma NothingAfterAFailedWrite(nodes: seq<Node>, steps: seq<Step>, m: nat, k: nat)
    requires IsRun(nodes, steps) && m < k <= |steps| && steps[m].Work?
    requires steps[m].line in nodes[m].lines && Busy(nodes[m].lines[steps[m].line])
    requires var l := nodes[m].lines[steps[m].line];
             var c := l.pushed[|l.log|];
             Put(c, steps[m].luck) != Meant(c) || (c.Composer? && !Delivered(c.paste, steps[m].luck))
    ensures steps[m].line in nodes[k].lines
    ensures nodes[k].lines[steps[m].line].log == Worked(nodes[m].lines[steps[m].line], steps[m].luck).log
  {
    StepOfRun(nodes, steps, m);
    StoppedIsStill(nodes, steps, m + 1, k, steps[m].line);
  }

  /** A paste accepted by a writer that has stopped is never called Ok, and never Failed either. */
  lemma LatePasteIsUnknown(nodes: seq<Node>, steps: seq<Step>, m: nat, k: nat, c: nat)
    requires IsRun(nodes, steps) && m <= k <= |steps| && c in nodes[m].calls && nodes[m].calls[c].pushed
    requires nodes[m].calls[c].line.Some? && nodes[m].calls[c].line.value in nodes[m].lines
    requires var l := nodes[m].lines[nodes[m].calls[c].line.value]; !l.running && c !in l.acks
    ensures c in nodes[k].calls && nodes[k].calls[c].verdict != Some(Done) && nodes[k].calls[c].verdict != Some(Failed)
  {
    RunIsSafe(nodes, steps, k);
    CallsProgress(nodes, steps, m, k);
    StoppedIsStill(nodes, steps, m, k, nodes[m].calls[c].line.value);
    assert CallOk(nodes[k], c);
  }

  /** What a running writer has written is its commands, whole and in the order they were accepted;
      when it stopped, only the last one may be cut. */
  lemma WholeAndInOrder(nodes: seq<Node>, steps: seq<Step>, k: nat, id: nat)
    requires IsRun(nodes, steps) && k <= |steps| && id in nodes[k].lines
    ensures var l := nodes[k].lines[id];
            && |l.log| <= |l.pushed|
            && (forall i :: 0 <= i < |l.log| && (l.running || i + 1 < |l.log|) ==> l.log[i] == Meant(l.pushed[i]))
            && (l.log != [] ==> l.log[|l.log| - 1] <= Meant(l.pushed[|l.log| - 1]))
  {
    RunIsSafe(nodes, steps, k);
    assert LineOk(nodes[k].calls, id, nodes[k].lines[id]);
  }

  /** Everything about a command went well. */
  ghost predicate WentWell(c: Command, luck: Luck) {
    match c
    case Composer(_, paste) =>
      luck.taken >= |paste| && luck.flushed && luck.enterTaken >= |ENTER| && luck.enterFlushed
    case Input(chunk) => luck.taken >= |chunk|
    case Resize => luck.resized
    case Refresh => true
  }

  /** A writer stops only because something about a command did not go well, or because it is stopped: its
      senders or its process are gone. */
  lemma StopsOnlyFor(nodes: seq<Node>, steps: seq<Step>, m: nat, id: nat)
    requires IsRun(nodes, steps) && m < |steps| && id in nodes[m].lines && nodes[m].lines[id].running
    ensures id in nodes[m + 1].lines
    ensures nodes[m + 1].lines[id].running <==>
            && steps[m] != Stop(id)
            && !(steps[m].Work? && steps[m].line == id && Busy(nodes[m].lines[id])
                 && !WentWell(nodes[m].lines[id].pushed[|nodes[m].lines[id].log|], steps[m].luck))
  {
    StepOfRun(nodes, steps, m);
  }
}
