/**
  The command Offdesk installs as a Claude Code hook, and how it recognises its own
  (crates/protocol/src/lib.rs).
*/
module HookCommands {
  import opened Wrappers

  function Contains(s: string, sub: string): bool {
    sub <= s || (s != "" && Contains(s[1..], sub))
  }

  predicate Safe(c: char) {
    'a' <= c <= 'z' || 'A' <= c <= 'Z' || '0' <= c <= '9' || c in "/._-+"
  }

  /** Each single quote closes the quotes, adds an escaped one and opens them again. */
  function Escaped(path: string): string {
    if path == "" then ""
    else (if path[0] == '\'' then "'\\''" else [path[0]]) + Escaped(path[1..])
  }

  /** A path as one shell word. */
  function ShellWord(path: string): string {
    if path != "" && forall c <- path :: Safe(c) then path else "'" + Escaped(path) + "'"
  }

  const HOOK := " hook claude "
  const NAME := "offdesk"

  function HookCommand(cli: string, event: string): string { ShellWord(cli) + HOOK + event }

  predicate IsOffdeskCommand(command: string) { Contains(command, HOOK) && Contains(command, NAME) }

  const EVENTS: seq<string> := [
    "SessionStart", "UserPromptSubmit", "PreToolUse", "PermissionRequest",
    "PostToolUse", "PostToolUseFailure", "Notification", "Stop"
  ]

  /** No character of `w` means anything in quotes. */
  ghost predicate Plain(w: string) { w != "" && forall c <- w :: c != '\'' && c != '\\' && c != ' ' }

  lemma {:induction false} ContainsAfter(a: string, b: string, w: string)
    requires Contains(b, w)
    ensures Contains(a + b, w)
    decreases |a|
  {
    if a == "" {
      assert a + b == b;
    } else {
      assert (a + b)[1..] == a[1..] + b;
      ContainsAfter(a[1..], b, w);
    }
  }

  /** A word that does not reach into what follows. */
  lemma {:induction false} StartsBefore(p: string, t: string, w: string)
    requires w != "" && t != "" && t[0] !in w
    ensures w <= p + t <==> w <= p
    decreases |p|
  {
    if p == "" {
      assert p + t == t;
    } else {
      assert (p + t)[1..] == p[1..] + t;
      if |w| > 1 && w[0] == p[0] {
        StartsBefore(p[1..], t, w[1..]);
        assert w == [w[0]] + w[1..];
      }
    }
  }

  lemma {:induction false} ContainsSplits(p: string, t: string, w: string)
    requires w != "" && t != "" && t[0] !in w
    ensures Contains(p + t, w) <==> Contains(p, w) || Contains(t, w)
    decreases |p|
  {
    if p == "" {
      assert p + t == t;
    } else {
      assert (p + t)[1..] == p[1..] + t;
      StartsBefore(p, t, w);
      ContainsSplits(p[1..], t, w);
    }
  }

  lemma {:induction false} EscapedStarts(p: string, w: string)
    requires Plain(w)
    ensures w <= Escaped(p) <==> w <= p
    decreases |p|
  {
    if p != "" && p[0] != '\'' {
      assert Escaped(p)[1..] == Escaped(p[1..]);
      if |w| > 1 && w[0] == p[0] {
        assert forall c <- w[1..] :: c in w;
        EscapedStarts(p[1..], w[1..]);
        assert w == [w[0]] + w[1..];
      }
    } else if p != "" {
      assert Escaped(p)[0] == '\'' && w[0] in w;
    }
  }

  /** Escaping hides no word and makes none. */
  lemma {:induction false} EscapedContains(p: string, w: string)
    requires Plain(w)
    ensures Contains(Escaped(p), w) <==> Contains(p, w)
    decreases |p|
  {
    if p != "" {
      var rest := Escaped(p[1..]);
      EscapedContains(p[1..], w);
      EscapedStarts(p, w);
      if p[0] == '\'' {
        NoneInEscape(rest, w);
      } else {
        assert Escaped(p)[1..] == rest;
      }
    }
  }

  lemma ContainsSkips(c: char, rest: string, w: string)
    requires w != "" && w[0] != c
    ensures Contains([c] + rest, w) <==> Contains(rest, w)
  {
    assert ([c] + rest)[1..] == rest;
  }

  lemma NoneInEscape(rest: string, w: string)
    requires Plain(w)
    ensures Contains("'\\''" + rest, w) <==> Contains(rest, w)
  {
    assert w[0] in w;
    ContainsSkips('\'', rest, w);
    ContainsSkips('\'', ['\''] + rest, w);
    ContainsSkips('\\', ['\''] + (['\''] + rest), w);
    ContainsSkips('\'', ['\\'] + (['\''] + (['\''] + rest)), w);
    assert "'\\''" + rest == ['\''] + (['\\'] + (['\''] + (['\''] + rest)));
  }

  lemma {:induction false} ContainsItsCharacters(s: string, w: string, c: char)
    requires Contains(s, w) && c in w
    ensures c in s
    decreases |s|
  {
    if w <= s {
      var i :| 0 <= i < |w| && w[i] == c;
      assert s[i] == c;
    } else {
      ContainsItsCharacters(s[1..], w, c);
    }
  }

  /** Most event names lack the `f` of "offdesk"; `Notification` lacks its `s`. */
  lemma NameNotInTail(event: string)
    requires event in EVENTS
    ensures !Contains(HOOK + event, NAME)
  {
    var missing := if event == "Notification" then 's' else 'f';
    assert missing !in HOOK && missing !in event;
    if Contains(HOOK + event, NAME) {
      ContainsItsCharacters(HOOK + event, NAME, missing);
    }
  }

  lemma WordInQuotes(cli: string, tail: string, w: string)
    requires Plain(w) && !Contains(tail, w)
    ensures Contains("'" + Escaped(cli) + "'" + tail, w) <==> Contains(cli, w)
  {
    var rest := ['\''] + tail;
    assert w[0] in w;
    ContainsSkips('\'', tail, w);
    ContainsSplits(Escaped(cli), rest, w);
    EscapedContains(cli, w);
    ContainsSkips('\'', Escaped(cli) + rest, w);
    assert "'" + Escaped(cli) + "'" + tail == ['\''] + (Escaped(cli) + rest);
  }

  lemma WordInCommand(cli: string, tail: string, w: string)
    requires Plain(w) && tail != "" && tail[0] == ' ' && !Contains(tail, w)
    ensures Contains(ShellWord(cli) + tail, w) <==> Contains(cli, w)
  {
    if ShellWord(cli) == cli {
      ContainsSplits(cli, tail, w);
    } else {
      WordInQuotes(cli, tail, w);
    }
  }

  lemma HookIn(word: string, event: string)
    ensures Contains(word + (HOOK + event), HOOK)
  {
    assert HOOK <= HOOK + event;
    ContainsAfter(word, HOOK + event, HOOK);
  }

  lemma NameIsPlain(event: string)
    ensures Plain(NAME) && HOOK + event != "" && (HOOK + event)[0] == ' '
  {
  }

  lemma RecognisedWhen(cli: string, event: string)
    requires !Contains(HOOK + event, NAME)
    ensures IsOffdeskCommand(ShellWord(cli) + (HOOK + event)) <==> Contains(cli, NAME)
  {
    HookIn(ShellWord(cli), event);
    NameIsPlain(event);
    WordInCommand(cli, HOOK + event, NAME);
  }

  lemma CommandIsWordAndTail(cli: string, event: string)
    ensures HookCommand(cli, event) == ShellWord(cli) + (HOOK + event)
  {
    assert ShellWord(cli) + HOOK + event == ShellWord(cli) + (HOOK + event);
  }

  /** Offdesk recognises the command it installed exactly when its program's path has its name. */
  lemma RecognisedIff(cli: string, event: string)
    requires event in EVENTS
    ensures IsOffdeskCommand(HookCommand(cli, event)) <==> Contains(cli, NAME)
  {
    NameNotInTail(event);
    RecognisedWhen(cli, event);
    CommandIsWordAndTail(cli, event);
  }

  // ---------- What a shell makes of it ----------

  function Before(c: char, read: Option<(string, string)>): Option<(string, string)> {
    if read.Some? then Some(([c] + read.value.0, read.value.1)) else None
  }

  /** A shell reading one word: what it comes to and what follows it. None where a character would mean
      something else to a shell, or quotes are left open. */
  function ReadWord(s: string, quoted: bool): Option<(string, string)>
    decreases |s|
  {
    if s == "" then if quoted then None else Some(("", ""))
    else if quoted then if s[0] == '\'' then ReadWord(s[1..], false) else Before(s[0], ReadWord(s[1..], true))
    else if s[0] == ' ' then Some(("", s))
    else if s[0] == '\'' then ReadWord(s[1..], true)
    else if s[0] == '\\' then if |s| < 2 then None else Before(s[1], ReadWord(s[2..], false))
    else if Safe(s[0]) then Before(s[0], ReadWord(s[1..], false))
    else None
  }

  /** The path, put in front of what is read after it. */
  function After(path: string, read: Option<(string, string)>): Option<(string, string)> {
    if read.Some? then Some((path + read.value.0, read.value.1)) else None
  }

  lemma AfterBefore(path: string, read: Option<(string, string)>)
    requires path != ""
    ensures Before(path[0], After(path[1..], read)) == After(path, read)
  {
    if read.Some? {
      assert [path[0]] + (path[1..] + read.value.0) == path + read.value.0;
    }
  }

  lemma {:induction false} SafeReads(path: string, rest: string)
    requires forall c <- path :: Safe(c)
    ensures ReadWord(path + rest, false) == After(path, ReadWord(rest, false))
    decreases |path|
  {
    if path == "" {
      assert path + rest == rest;
      assert ReadWord(rest, false).Some? ==> path + ReadWord(rest, false).value.0 == ReadWord(rest, false).value.0;
    } else {
      assert (path + rest)[0] == path[0] && (path + rest)[1..] == path[1..] + rest;
      assert path[0] in path && Safe(path[0]);
      SafeReads(path[1..], rest);
      AfterBefore(path, ReadWord(rest, false));
    }
  }

  lemma {:induction false} EscapedReads(path: string, rest: string)
    ensures ReadWord(Escaped(path) + (['\''] + rest), true) == After(path, ReadWord(rest, false))
    decreases |path|
  {
    var close := ['\''] + rest;
    if path == "" {
      assert Escaped(path) + close == close && close[1..] == rest;
      assert ReadWord(rest, false).Some? ==> path + ReadWord(rest, false).value.0 == ReadWord(rest, false).value.0;
    } else {
      var more := Escaped(path[1..]) + close;
      EscapedReads(path[1..], rest);
      AfterBefore(path, ReadWord(rest, false));
      if path[0] == '\'' {
        assert Escaped(path) + close == "'\\''" + more;
        EscapeReads(more);
      } else {
        assert Escaped(path) + close == [path[0]] + more;
        assert ([path[0]] + more)[1..] == more;
      }
    }
  }

  lemma EscapeReads(more: string)
    ensures ReadWord("'\\''" + more, true) == Before('\'', ReadWord(more, true))
  {
    var third := ['\''] + more;
    var second := ['\\', '\''] + third;
    assert third[1..] == more && second[2..] == third;
    assert ReadWord(third, false) == ReadWord(more, true);
    assert ReadWord(second, false) == Before('\'', ReadWord(third, false));
    assert "'\\''" + more == ['\''] + second && (['\''] + second)[1..] == second;
  }

  /** Any path at all is read back by a shell as that one word. */
  lemma ShellReadsItBack(path: string, tail: string)
    requires tail == "" || tail[0] == ' '
    ensures ReadWord(ShellWord(path) + tail, false) == Some((path, tail))
  {
    assert ReadWord(tail, false) == Some(("", tail));
    assert path + "" == path;
    if path != "" && forall c <- path :: Safe(c) {
      SafeReads(path, tail);
    } else {
      var quoted := Escaped(path) + (['\''] + tail);
      assert ShellWord(path) + tail == ['\''] + quoted;
      assert (['\''] + quoted)[1..] == quoted;
      EscapedReads(path, tail);
    }
  }

  /** So the installed command runs the program, whatever its path, with the hook's arguments. */
  lemma CommandRunsTheProgram(cli: string, event: string)
    ensures ReadWord(HookCommand(cli, event), false) == Some((cli, " hook claude " + event))
  {
    CommandIsWordAndTail(cli, event);
    ShellReadsItBack(cli, HOOK + event);
  }
}
