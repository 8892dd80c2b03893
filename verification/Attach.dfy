/**
  The writer queue of an attach (crates/machine/src/attach.rs): one thread takes commands in order
  and writes them to the PTY, and a composer call is told only what certainly happened.
*/
module Attach {
  import opened Sequences

  datatype Command =
    | Composer(call: nat, paste: string)
    | Input(chunk: string)
    | Resize
    | Refresh

  /** How the writes of one command go: how many bytes of each are taken, and whether the flushes and
      the resize work. */
  datatype Luck = Luck(taken: nat, flushed: bool, enterTaken: nat, enterFlushed: bool, resized: bool)

  const ENTER := "\r"

  predicate Pasted(paste: string, luck: Luck) { luck.taken >= |paste| && luck.flushed }

  predicate Delivered(paste: string, luck: Luck) {
    Pasted(paste, luck) && luck.enterTaken >= |ENTER| && luck.enterFlushed
  }

  /** What a command is meant to put into the PTY. */
  function Meant(c: Command): string {
    match c
    case Composer(_, paste) => paste + ENTER
    case Input(chunk) => chunk
    case Resize => ""
    case Refresh => ""
  }

  /** What it does put there. */
  function Put(c: Command, luck: Luck): string {
    match c
    case Composer(_, paste) =>
      if Pasted(paste, luck) then paste + AtMost(ENTER, luck.enterTaken) else AtMost(paste, luck.taken)
    case Input(chunk) => AtMost(chunk, luck.taken)
    case Resize => ""
    case Refresh => ""
  }

  /** Whether the writer goes on afterwards. */
  predicate GoesOn(c: Command, luck: Luck) {
    match c
    case Composer(_, paste) => Delivered(paste, luck)
    case Input(chunk) => luck.taken >= |chunk|
    case Resize => luck.resized
    case Refresh => true
  }

  /** One attach: every command its channel accepted, what each handled one put into the PTY, whether the
      writer loop runs and whether its channel exists, and the acknowledgements given. The commands not
      handled yet are the queue; the channel outlives the loop until the child is reaped. */
  datatype Line = Line(pushed: seq<Command>, log: seq<string>, running: bool, open: bool, acks: map<nat, bool>)

  const NEW_LINE := Line([], [], true, true, map[])

  predicate Busy(l: Line) { l.running && |l.log| < |l.pushed| }

  function Worked(l: Line, luck: Luck): Line
    requires Busy(l)
  {
    var c := l.pushed[|l.log|];
    l.(log := l.log + [Put(c, luck)],
       running := GoesOn(c, luck),
       acks := if c.Composer? then l.acks[c.call := Delivered(c.paste, luck)] else l.acks)
  }

  /** The writer with as many commands as luck is given for. */
  function WorkedThrough(l: Line, lucks: seq<Luck>): Line
    decreases |lucks|
  {
    if lucks == [] || !Busy(l) then l else WorkedThrough(Worked(l, lucks[0]), lucks[1..])
  }

  /** The bytes in the PTY. */
  function Stream(log: seq<string>): string
    decreases |log|
  {
    if log == [] then "" else Stream(log[..|log| - 1]) + log[|log| - 1]
  }

  lemma {:induction false} StreamSplits(a: seq<string>, b: seq<string>)
    ensures Stream(a + b) == Stream(a) + Stream(b)
    decreases |b|
  {
    if b == [] {
      assert a + b == a;
    } else {
      var n := |b| - 1;
      assert (a + b)[..|a + b| - 1] == a + b[..n];
      StreamSplits(a, b[..n]);
    }
  }

  lemma StreamAround(log: seq<string>, i: nat)
    requires i < |log|
    ensures Stream(log) == Stream(log[..i]) + log[i] + Stream(log[i + 1..])
  {
    assert log == log[..i + 1] + log[i + 1..] && log[..i + 1][..i] == log[..i];
    StreamSplits(log[..i + 1], log[i + 1..]);
  }

  lemma {:induction false} WorkedFurther(l: Line, lucks: seq<Luck>, n: nat)
    requires n < |lucks| && Busy(WorkedThrough(l, lucks[..n]))
    ensures WorkedThrough(l, lucks[..n + 1]) == Worked(WorkedThrough(l, lucks[..n]), lucks[n])
    decreases n
  {
    if n == 0 {
      assert lucks[..1][1..] == [];
    } else {
      assert lucks[..n][1..] == lucks[1..][..n - 1];
      assert lucks[..n + 1][1..] == lucks[1..][..n];
      WorkedFurther(Worked(l, lucks[0]), lucks[1..], n - 1);
    }
  }

  lemma {:induction false} StoppedStays(l: Line, lucks: seq<Luck>, n: nat)
    requires n <= |lucks| && !Busy(WorkedThrough(l, lucks[..n]))
    ensures WorkedThrough(l, lucks) == WorkedThrough(l, lucks[..n])
    decreases n
  {
    if n > 0 && Busy(l) {
      assert lucks[..n][1..] == lucks[1..][..n - 1];
      StoppedStays(Worked(l, lucks[0]), lucks[1..], n - 1);
    }
  }

  lemma WorkedStream(l: Line, luck: Luck)
    requires Busy(l)
    ensures Stream(Worked(l, luck).log) == Stream(l.log) + Put(l.pushed[|l.log|], luck)
  {
    assert Worked(l, luck).log[..|l.log|] == l.log;
  }

  /** The writer thread over its PTY. */
  class Writer {
    var pty: string
    var acks: map<nat, bool>

    constructor ()
      ensures pty == "" && acks == map[]
    {
      pty, acks := "", map[];
    }

    /** Fails after some of the bytes, or takes them all. */
    method WriteAll(data: string, taken: nat) returns (ok: bool)
      modifies this`pty
      ensures pty == old(pty) + AtMost(data, taken) && (ok <==> taken >= |data|)
    {
      pty := pty + AtMost(data, taken);
      ok := taken >= |data|;
    }

    method Handle(c: Command, luck: Luck) returns (goesOn: bool)
      modifies this
      ensures pty == old(pty) + Put(c, luck) && goesOn == GoesOn(c, luck)
      ensures acks == if c.Composer? then old(acks)[c.call := Delivered(c.paste, luck)] else old(acks)
    {
      match c
      case Composer(call, paste) =>
        var pasted := WriteAll(paste, luck.taken);
        pasted := pasted && luck.flushed;
        var delivered := false;
        if pasted {
          var entered := WriteAll(ENTER, luck.enterTaken);
          delivered := entered && luck.enterFlushed;
        }
        acks := acks[call := delivered];
        goesOn := delivered;
      case Input(chunk) =>
        goesOn := WriteAll(chunk, luck.taken);
      case Resize =>
        goesOn := luck.resized;
      case Refresh =>
        goesOn := true;
    }

    /** Takes the commands `queue` one by one, until one fails or they run out. */
    method Serve(queue: seq<Command>, lucks: seq<Luck>) returns (stopped: bool)
      requires |lucks| == |queue| && acks == map[]
      modifies this
      ensures var l := WorkedThrough(NEW_LINE.(pushed := queue), lucks);
              pty == old(pty) + Stream(l.log) && acks == l.acks && stopped == !l.running
    {
      ghost var was := pty;
      ghost var whole := NEW_LINE.(pushed := queue);
      ghost var line := whole;
      var i := 0;
      while i < |queue|
        invariant i <= |queue| && line == WorkedThrough(whole, lucks[..i])
        invariant line.pushed == queue && |line.log| == i && line.running
        invariant pty == was + Stream(line.log) && acks == line.acks
      {
        var goesOn := Handle(queue[i], lucks[i]);
        WorkedFurther(whole, lucks, i);
        WorkedStream(line, lucks[i]);
        line := Worked(line, lucks[i]);
        i := i + 1;
        if !goesOn {
          StoppedStays(whole, lucks, i);
          return true;
        }
      }
      StoppedStays(whole, lucks, i);
      return false;
    }
  }
}
