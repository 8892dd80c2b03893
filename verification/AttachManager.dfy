/** The node's attaches by name (crates/machine/src/attach.rs): every method is steps of `AttachCalls`. */
module AttachManager {
  import opened Wrappers
  import opened Attach
  import opened AttachCalls

  class Manager {
    var handles: map<string, nat>
    var lines: map<nat, Line>
    var calls: map<nat, Call>

    function State(): Node
      reads this
    {
      Node(handles, lines, calls)
    }

    constructor ()
      ensures State() == NEW_NODE
    {
      handles, lines, calls := map[], map[], map[];
    }

    /** `line` is the new attach; its thread then spawns the tmux client. */
    method Open(attach: string, line: nat)
      requires line !in lines
      modifies this
      ensures State() == Next(old(State()), OpenAttach(attach, line))
    {
      handles := handles[attach := line];
      lines := lines[line := NEW_LINE];
    }

    /** Only the handle goes: the writer ends when its queue is empty. */
    method Close(attach: string)
      modifies this`handles
      ensures State() == Next(old(State()), Step.Close(attach))
    {
      handles := handles - {attach};
    }

    method CloseAll()
      modifies this`handles
      ensures State() == Next(old(State()), Step.CloseAll)
    {
      handles := map[];
    }

    /** The first half of `write_composer`: find the attach and hand it the paste. `line` is whatever the
        handle names; it is never forgotten while somebody holds it. */
    method SendPaste(call: nat, attach: string, paste: string) returns (failed: bool)
      requires call !in calls && (attach in handles ==> handles[attach] in lines)
      modifies this
      ensures var begun := Next(old(State()), BeginCall(call, attach, paste));
              State() == if attach in old(handles) then Next(begun, PushCall(call)) else begun
      ensures failed <==> calls[call].verdict == Some(Failed)
      ensures failed <==> attach !in old(handles) || !old(lines)[old(handles)[attach]].open
    {
      ghost var begun := Next(State(), BeginCall(call, attach, paste));
      if attach !in handles {
        calls := calls[call := Call(paste, None, false, Some(Failed))];
        return true;
      }
      var line := handles[attach];
      calls := calls[call := Call(paste, Some(line), false, None)];
      assert State() == begun;
      if !lines[line].open {
        calls := calls[call := calls[call].(verdict := Some(Failed))];
        return true;
      }
      lines := lines[line := Pushed(lines[line], Composer(call, paste))];
      calls := calls[call := calls[call].(pushed := true)];
      return false;
    }

    /** The second half: the answer of the writer, or the end of waiting for it. */
    method Await(call: nat, heard: bool) returns (verdict: Verdict)
      requires call in calls && calls[call].pushed && calls[call].verdict == None
      requires heard ==>
                 && calls[call].line.Some? && calls[call].line.value in lines
                 && call in lines[calls[call].line.value].acks
      modifies this`calls
      ensures State() == Next(old(State()), if heard then Hear(call) else GiveUp(call))
      ensures calls[call].verdict == Some(verdict) && verdict != Failed
    {
      verdict := Unknown;
      if heard && lines[calls[call].line.value].acks[call] {
        verdict := Done;
      }
      calls := calls[call := calls[call].(verdict := Some(verdict))];
    }

    /** Input, a resize or a redraw: false when the attach is unknown or its channel is gone. */
    method Send(attach: string, command: Command) returns (ok: bool)
      requires !command.Composer? && (attach in handles ==> handles[attach] in lines)
      modifies this`lines
      ensures ok <==> attach in handles && old(lines)[handles[attach]].open
      ensures State() == if ok then Next(old(State()), Feed(handles[attach], command)) else old(State())
    {
      if attach !in handles || !lines[handles[attach]].open {
        return false;
      }
      var line := handles[attach];
      lines := lines[line := Pushed(lines[line], command)];
      return true;
    }
  }
}
