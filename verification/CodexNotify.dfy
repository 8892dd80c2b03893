/** Offdesk's place in Codex's one `notify` program (crates/cli/src/agents.rs). */
module CodexNotify {
  import opened Wrappers
  import opened HookCommands

  /** The `notify` key: absent, a list of strings, or something else. */
  datatype Notify = Absent | Argv(argv: seq<string>) | NotAList

  /** The rest of the file keeps its text. */
  datatype Config = Config(notify: Notify, rest: string)

  const NOT_A_LIST := "its \"notify\" isn't a list of strings"

  predicate RunsOffdeskFirst(argv: seq<string>) {
    |argv| >= 4 && Contains(argv[0], NAME) && argv[1..4] == ["hook", "codex", "notify"]
  }

  function Prefix(exe: string): seq<string> { [exe, "hook", "codex", "notify"] }

  /** The person's own program. */
  function Own(n: Notify): seq<string>
    requires !n.NotAList?
  {
    match n
    case Absent => []
    case Argv(argv) => if RunsOffdeskFirst(argv) then argv[4..] else argv
  }

  function Updated(c: Config, exe: string, install: bool): (r: Result<Config, string>)
    ensures r.Err? <==> c.notify.NotAList?
  {
    if c.notify.NotAList? then Err(NOT_A_LIST)
    else
      var next := if install then Prefix(exe) + Own(c.notify) else Own(c.notify);
      Ok(c.(notify := if next == [] then Absent else Argv(next)))
  }

  method UpdateConfig(c: Config, exe: string, install: bool) returns (r: Result<Config, string>)
    ensures r == Updated(c, exe, install)
  {
    if c.notify.NotAList? {
      return Err(NOT_A_LIST);
    }
    var own := [];
    if c.notify.Argv? {
      own := c.notify.argv;
      if RunsOffdeskFirst(own) {
        own := own[4..];
      }
    }
    var next := own;
    if install {
      next := [exe, "hook", "codex", "notify"];
      next := next + own;
    }
    if next == [] {
      r := Ok(c.(notify := Absent));
    } else {
      r := Ok(c.(notify := Argv(next)));
    }
  }

  lemma InstalledRunsFirstIff(exe: string, own: seq<string>)
    ensures RunsOffdeskFirst(Prefix(exe) + own) <==> Contains(exe, NAME)
    ensures (Prefix(exe) + own)[4..] == own
  {
    assert (Prefix(exe) + own)[1..4] == ["hook", "codex", "notify"];
  }

  /** Uninstalling after an install restores the config exactly when the program is recognised, the
      person's own list did not already start with Offdesk's prefix, and it was not an empty list. */
  lemma RestoredIff(c: Config, exe: string)
    requires !c.notify.NotAList?
    ensures Updated(c, exe, true).Ok?
    ensures Updated(Updated(c, exe, true).value, exe, false) == Ok(c) <==>
              Contains(exe, NAME) && c.notify != Argv([]) && !(c.notify.Argv? && RunsOffdeskFirst(c.notify.argv))
  {
    var own := Own(c.notify);
    InstalledRunsFirstIff(exe, own);
    if c.notify.Argv? && RunsOffdeskFirst(c.notify.argv) {
      assert (Prefix(exe) + own)[0] == exe;
    }
  }

  /** A later update (again, for a moved program, or to uninstall) gives what it gives without the
      install, exactly when the installed program is recognised. */
  lemma UpdateForgetsInstallIff(c: Config, exe: string, next: string, install: bool)
    requires !c.notify.NotAList?
    ensures Updated(c, exe, true).Ok?
    ensures Updated(Updated(c, exe, true).value, next, install) == Updated(c, next, install) <==> Contains(exe, NAME)
  {
    InstalledRunsFirstIff(exe, Own(c.notify));
  }

  /** `argv` starts with Offdesk's hook, run by some program that is recognised, and goes on with `own`. */
  ghost predicate StartsWithOurs(argv: seq<string>, own: seq<string>) {
    exists program :: Contains(program, NAME) && argv == [program, "hook", "codex", "notify"] + own
  }

  lemma OursIff(argv: seq<string>)
    ensures RunsOffdeskFirst(argv) <==> exists own :: StartsWithOurs(argv, own)
    ensures RunsOffdeskFirst(argv) ==> StartsWithOurs(argv, argv[4..])
    ensures forall own :: StartsWithOurs(argv, own) ==> own == argv[4..]
  {
    if RunsOffdeskFirst(argv) {
      assert argv == [argv[0]] + argv[1..4] + argv[4..];
      assert argv == [argv[0], "hook", "codex", "notify"] + argv[4..];
      assert StartsWithOurs(argv, argv[4..]);
    }
    forall own | StartsWithOurs(argv, own) ensures RunsOffdeskFirst(argv) && own == argv[4..] {
      var program :| Contains(program, NAME) && argv == [program, "hook", "codex", "notify"] + own;
      assert argv[1..4] == ["hook", "codex", "notify"];
    }
  }

  /** Exactly what an update leaves: the person's own program, without Offdesk's in front, and with the
      installed one in front of it; an empty list is no key at all. */
  lemma UpdatedIs(c: Config, exe: string, own: seq<string>)
    requires match c.notify
             case Absent => own == []
             case Argv(argv) => StartsWithOurs(argv, own) || (own == argv && !exists o :: StartsWithOurs(argv, o))
             case NotAList => false
    ensures Updated(c, exe, true) == Ok(c.(notify := Argv([exe, "hook", "codex", "notify"] + own)))
    ensures Updated(c, exe, false) == Ok(c.(notify := if own == [] then Absent else Argv(own)))
  {
    if c.notify.Argv? {
      OursIff(c.notify.argv);
    }
    assert [exe, "hook", "codex", "notify"] + own != [];
  }
}
