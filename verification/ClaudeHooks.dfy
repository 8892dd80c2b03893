/**
  Installing and removing Offdesk's hooks in a person's Claude Code settings
  (crates/cli/src/agents.rs).
*/
module ClaudeHooks {
  import opened Wrappers
  import opened HookCommands
  import opened Sequences

  /** A hook handler; `rest` is everything besides its command. */
  datatype Handler = Handler(command: Option<string>, rest: string)

  /** A hook group, with its list of handlers if it has one. */
  datatype Group = Group(handlers: Option<seq<Handler>>, rest: string)

  datatype EventHooks = EventHooks(event: string, groups: seq<Group>)

  /** The "hooks" object, in order. */
  type Hooks = seq<EventHooks>

  /** One key of the settings; "hooks" may not be what it should. */
  datatype Field = Other(key: string, text: string) | HooksField(hooks: Option<Hooks>)

  type Settings = seq<Field>

  const INVALID := "its \"hooks\" isn't valid"
  const OUR_REST := "{\"type\": \"command\", \"timeout\": 5}"

  predicate Ours(h: Handler) { h.command.Some? && IsOffdeskCommand(h.command.value) }

  function OwnHandlers(handlers: seq<Handler>): seq<Handler>
    decreases |handlers|
  {
    if handlers == [] then []
    else if Ours(handlers[0]) then OwnHandlers(handlers[1..])
    else [handlers[0]] + OwnHandlers(handlers[1..])
  }

  function CleanGroup(g: Group): Group {
    if g.handlers.Some? then g.(handlers := Some(OwnHandlers(g.handlers.value))) else g
  }

  predicate Kept(g: Group) { g.handlers != Some([]) }

  function CleanGroups(groups: seq<Group>): seq<Group>
    decreases |groups|
  {
    if groups == [] then []
    else if Kept(CleanGroup(groups[0])) then [CleanGroup(groups[0])] + CleanGroups(groups[1..])
    else CleanGroups(groups[1..])
  }

  function CleanEvent(e: EventHooks): EventHooks { e.(groups := CleanGroups(e.groups)) }

  /** Without Offdesk's handlers, and without the groups and events that leaves empty. */
  function Clean(hooks: Hooks): Hooks
    decreases |hooks|
  {
    if hooks == [] then []
    else if CleanEvent(hooks[0]).groups == [] then Clean(hooks[1..])
    else [CleanEvent(hooks[0])] + Clean(hooks[1..])
  }

  /** Adds a group to an event, which comes last if it is new. */
  function Push(hooks: Hooks, event: string, g: Group): Hooks
    decreases |hooks|
  {
    if hooks == [] then [EventHooks(event, [g])]
    else if hooks[0].event == event then [hooks[0].(groups := hooks[0].groups + [g])] + hooks[1..]
    else [hooks[0]] + Push(hooks[1..], event, g)
  }

  function OurHandler(exe: string, event: string): Handler { Handler(Some(HookCommand(exe, event)), OUR_REST) }

  function OurGroup(exe: string, event: string): Group { Group(Some([OurHandler(exe, event)]), "") }

  function PushAll(hooks: Hooks, exe: string, events: seq<string>): Hooks
    decreases |events|
  {
    if events == [] then hooks else PushAll(Push(hooks, events[0], OurGroup(exe, events[0])), exe, events[1..])
  }

  /** The hooks in the settings: None when they are not valid, none when there are none. */
  function HooksIn(settings: Settings): Option<Hooks>
    decreases |settings|
  {
    if settings == [] then Some([])
    else if settings[0].HooksField? then settings[0].hooks
    else HooksIn(settings[1..])
  }

  function Removed(settings: Settings): Settings
    decreases |settings|
  {
    if settings == [] then []
    else if settings[0].HooksField? then settings[1..]
    else [settings[0]] + Removed(settings[1..])
  }

  function Inserted(settings: Settings, hooks: Hooks): Settings
    decreases |settings|
  {
    if settings == [] then [HooksField(Some(hooks))]
    else if settings[0].HooksField? then [HooksField(Some(hooks))] + settings[1..]
    else [settings[0]] + Inserted(settings[1..], hooks)
  }

  function WithHooks(settings: Settings, hooks: Hooks): Settings {
    if hooks == [] then Removed(settings) else Inserted(settings, hooks)
  }

  function NewHooks(hooks: Hooks, exe: string, install: bool): Hooks {
    if install then PushAll(Clean(hooks), exe, EVENTS) else Clean(hooks)
  }

  function Updated(settings: Settings, exe: string, install: bool): Result<Settings, string> {
    match HooksIn(settings)
    case None => Err(INVALID)
    case Some(hooks) => Ok(WithHooks(settings, NewHooks(hooks, exe, install)))
  }

  lemma OwnAt(handlers: seq<Handler>, j: nat)
    requires j < |handlers|
    ensures OwnHandlers(handlers[j..]) ==
            if Ours(handlers[j]) then OwnHandlers(handlers[j + 1..]) else [handlers[j]] + OwnHandlers(handlers[j + 1..])
  {
    assert handlers[j..][1..] == handlers[j + 1..];
  }

  lemma CleanGroupsAt(groups: seq<Group>, i: nat)
    requires i < |groups|
    ensures var g := CleanGroup(groups[i]);
            CleanGroups(groups[i..]) ==
            if Kept(g) then [g] + CleanGroups(groups[i + 1..]) else CleanGroups(groups[i + 1..])
  {
    assert groups[i..][1..] == groups[i + 1..];
  }

  lemma CleanAt(hooks: Hooks, i: nat)
    requires i < |hooks|
    ensures var e := CleanEvent(hooks[i]);
            Clean(hooks[i..]) == if e.groups == [] then Clean(hooks[i + 1..]) else [e] + Clean(hooks[i + 1..])
  {
    assert hooks[i..][1..] == hooks[i + 1..];
  }

  method RetainOwn(handlers: seq<Handler>) returns (own: seq<Handler>)
    ensures own == OwnHandlers(handlers)
  {
    own := [];
    var j := 0;
    while j < |handlers|
      invariant j <= |handlers| && own + OwnHandlers(handlers[j..]) == OwnHandlers(handlers)
    {
      OwnAt(handlers, j);
      Regroup(own, [handlers[j]], OwnHandlers(handlers[j + 1..]));
      if !Ours(handlers[j]) {
        own := own + [handlers[j]];
      }
      j := j + 1;
    }
  }

  method RetainGroups(groups: seq<Group>) returns (kept: seq<Group>)
    ensures kept == CleanGroups(groups)
  {
    kept := [];
    var i := 0;
    while i < |groups|
      invariant i <= |groups| && kept + CleanGroups(groups[i..]) == CleanGroups(groups)
    {
      var group := groups[i];
      if group.handlers.Some? {
        var own := RetainOwn(group.handlers.value);
        group := group.(handlers := Some(own));
      }
      CleanGroupsAt(groups, i);
      Regroup(kept, [group], CleanGroups(groups[i + 1..]));
      if Kept(group) {
        kept := kept + [group];
      }
      i := i + 1;
    }
  }

  method RetainEvents(all: Hooks) returns (hooks: Hooks)
    ensures hooks == Clean(all)
  {
    hooks := [];
    var i := 0;
    while i < |all|
      invariant i <= |all| && hooks + Clean(all[i..]) == Clean(all)
    {
      var groups := RetainGroups(all[i].groups);
      var cleaned := all[i].(groups := groups);
      CleanAt(all, i);
      Regroup(hooks, [cleaned], Clean(all[i + 1..]));
      if groups != [] {
        hooks := hooks + [cleaned];
      }
      i := i + 1;
    }
  }

  method PushEvents(own: Hooks, exe: string, events: seq<string>) returns (hooks: Hooks)
    ensures hooks == PushAll(own, exe, events)
  {
    hooks := own;
    var i := 0;
    while i < |events|
      invariant i <= |events| && PushAll(hooks, exe, events[i..]) == PushAll(own, exe, events)
    {
      assert events[i..][1..] == events[i + 1..];
      hooks := Push(hooks, events[i], OurGroup(exe, events[i]));
      i := i + 1;
    }
  }

  method UpdateSettings(settings: Settings, exe: string, install: bool) returns (r: Result<Settings, string>)
    ensures r == Updated(settings, exe, install)
  {
    var found := HooksIn(settings);
    if found == None {
      return Err(INVALID);
    }
    var hooks := RetainEvents(found.value);
    if install {
      hooks := PushEvents(hooks, exe, EVENTS);
    }
    return Ok(WithHooks(settings, hooks));
  }

  lemma {:induction false} CleanGroupsSplits(a: seq<Group>, b: seq<Group>)
    ensures CleanGroups(a + b) == CleanGroups(a) + CleanGroups(b)
    decreases |a|
  {
    if a == [] {
      assert a + b == b;
    } else {
      assert (a + b)[1..] == a[1..] + b;
      CleanGroupsSplits(a[1..], b);
    }
  }

  /** Cleaning takes away what was pushed, if it is recognised. */
  lemma {:induction false} CleanUndoesPush(hooks: Hooks, event: string, h: Handler)
    requires Ours(h)
    ensures Clean(Push(hooks, event, Group(Some([h]), ""))) == Clean(hooks)
    decreases |hooks|
  {
    var g := Group(Some([h]), "");
    assert OwnHandlers([h]) == [];
    assert CleanGroups([g]) == [];
    if hooks != [] {
      if hooks[0].event == event {
        CleanGroupsSplits(hooks[0].groups, [g]);
        assert CleanGroups(hooks[0].groups + [g]) == CleanGroups(hooks[0].groups);
        assert Push(hooks, event, g)[1..] == hooks[1..];
      } else {
        CleanUndoesPush(hooks[1..], event, h);
        assert Push(hooks, event, g)[1..] == Push(hooks[1..], event, g);
      }
    }
  }

  ghost predicate IsClean(hooks: Hooks)
    decreases |hooks|
  {
    hooks != [] ==> hooks[0].groups != [] && CleanGroups(hooks[0].groups) == hooks[0].groups && IsClean(hooks[1..])
  }

  lemma {:induction false} CleanKeepsClean(hooks: Hooks)
    requires IsClean(hooks)
    ensures Clean(hooks) == hooks
    decreases |hooks|
  {
    if hooks != [] {
      CleanKeepsClean(hooks[1..]);
      assert CleanEvent(hooks[0]) == hooks[0];
    }
  }

  lemma {:induction false} OwnHandlersTwice(handlers: seq<Handler>)
    ensures OwnHandlers(OwnHandlers(handlers)) == OwnHandlers(handlers)
    decreases |handlers|
  {
    if handlers != [] {
      OwnHandlersTwice(handlers[1..]);
      if !Ours(handlers[0]) {
        assert OwnHandlers(handlers)[1..] == OwnHandlers(handlers[1..]);
      }
    }
  }

  lemma {:induction false} CleanGroupsTwice(groups: seq<Group>)
    ensures CleanGroups(CleanGroups(groups)) == CleanGroups(groups)
    decreases |groups|
  {
    if groups != [] {
      var g := groups[0];
      CleanGroupsTwice(groups[1..]);
      if g.handlers.Some? {
        OwnHandlersTwice(g.handlers.value);
      }
      assert CleanGroup(CleanGroup(g)) == CleanGroup(g);
      if Kept(CleanGroup(g)) {
        assert CleanGroups(groups)[1..] == CleanGroups(groups[1..]);
      }
    }
  }

  lemma {:induction false} CleanIsClean(hooks: Hooks)
    ensures IsClean(Clean(hooks))
    decreases |hooks|
  {
    if hooks != [] {
      CleanIsClean(hooks[1..]);
      CleanGroupsTwice(hooks[0].groups);
      if CleanGroups(hooks[0].groups) != [] {
        assert Clean(hooks)[1..] == Clean(hooks[1..]);
      }
    }
  }

  /** What is not recognised stays. */
  lemma {:induction false} PushStays(hooks: Hooks, event: string, h: Handler)
    requires !Ours(h) && IsClean(hooks)
    ensures IsClean(Push(hooks, event, Group(Some([h]), "")))
    decreases |hooks|
  {
    var g := Group(Some([h]), "");
    assert OwnHandlers([h]) == [h];
    assert CleanGroups([g]) == [g];
    if hooks != [] {
      if hooks[0].event == event {
        CleanGroupsSplits(hooks[0].groups, [g]);
        assert Push(hooks, event, g)[1..] == hooks[1..];
      } else {
        PushStays(hooks[1..], event, h);
        assert Push(hooks, event, g)[1..] == Push(hooks[1..], event, g);
      }
    }
  }

  lemma {:induction false} CleanAfterPushAll(hooks: Hooks, exe: string, events: seq<string>)
    requires forall e <- events :: e in EVENTS
    requires IsClean(hooks)
    ensures Clean(PushAll(hooks, exe, events)) == if Contains(exe, NAME) then hooks else PushAll(hooks, exe, events)
    decreases |events|
  {
    PushAllThenClean(hooks, exe, events);
    CleanKeepsClean(hooks);
    if !Contains(exe, NAME) {
      CleanKeepsClean(PushAll(hooks, exe, events));
    }
  }

  lemma {:induction false} PushAllThenClean(hooks: Hooks, exe: string, events: seq<string>)
    requires forall e <- events :: e in EVENTS
    ensures Contains(exe, NAME) ==> Clean(PushAll(hooks, exe, events)) == Clean(hooks)
    ensures !Contains(exe, NAME) && IsClean(hooks) ==> IsClean(PushAll(hooks, exe, events))
    decreases |events|
  {
    if events != [] {
      var e := events[0];
      var h := OurHandler(exe, e);
      RecognisedIff(exe, e);
      assert forall x <- events[1..] :: x in events;
      PushAllThenClean(Push(hooks, e, OurGroup(exe, e)), exe, events[1..]);
      if Contains(exe, NAME) {
        CleanUndoesPush(hooks, e, h);
      } else if IsClean(hooks) {
        PushStays(hooks, e, h);
      }
    }
  }

  function CountGroups(hooks: Hooks): nat
    decreases |hooks|
  {
    if hooks == [] then 0 else |hooks[0].groups| + CountGroups(hooks[1..])
  }

  lemma {:induction false} PushCounts(hooks: Hooks, event: string, g: Group)
    ensures CountGroups(Push(hooks, event, g)) == CountGroups(hooks) + 1
    decreases |hooks|
  {
    if hooks != [] {
      PushCounts(hooks[1..], event, g);
      assert Push(hooks, event, g)[1..] == if hooks[0].event == event then hooks[1..] else Push(hooks[1..], event, g);
    }
  }

  lemma {:induction false} PushAllCounts(hooks: Hooks, exe: string, events: seq<string>)
    ensures CountGroups(PushAll(hooks, exe, events)) == CountGroups(hooks) + |events|
    decreases |events|
  {
    if events != [] {
      PushCounts(hooks, events[0], OurGroup(exe, events[0]));
      PushAllCounts(Push(hooks, events[0], OurGroup(exe, events[0])), exe, events[1..]);
    }
  }

  /** A later update undoes an earlier install exactly when the earlier program's path is recognised. */
  lemma NewHooksAgain(hooks: Hooks, exe: string, next: string, install: bool)
    ensures NewHooks(NewHooks(hooks, exe, true), next, install) == NewHooks(hooks, next, install) <==>
            Contains(exe, NAME)
  {
    var own := Clean(hooks);
    var installed := PushAll(own, exe, EVENTS);
    CleanIsClean(hooks);
    CleanAfterPushAll(own, exe, EVENTS);
    PushAllCounts(own, exe, EVENTS);
    PushAllCounts(own, next, EVENTS);
    PushAllCounts(installed, next, EVENTS);
  }

  lemma {:induction false} InsertedIsRead(settings: Settings, hooks: Hooks)
    ensures HooksIn(Inserted(settings, hooks)) == Some(hooks)
    ensures Removed(Inserted(settings, hooks)) == Removed(settings)
    ensures forall more :: Inserted(Inserted(settings, hooks), more) == Inserted(settings, more)
    decreases |settings|
  {
    if settings != [] && !settings[0].HooksField? {
      InsertedIsRead(settings[1..], hooks);
      assert Inserted(settings, hooks)[1..] == Inserted(settings[1..], hooks);
    } else if settings != [] {
      assert Inserted(settings, hooks)[1..] == settings[1..];
    }
  }

  /** At most one key is "hooks". */
  ghost predicate OneHooks(settings: Settings) {
    forall i, j :: 0 <= i < j < |settings| ==> !(settings[i].HooksField? && settings[j].HooksField?)
  }

  lemma {:induction false} RemovedHasNone(settings: Settings)
    requires OneHooks(settings)
    ensures HooksIn(Removed(settings)) == Some([])
    decreases |settings|
  {
    if settings != [] {
      var rest := settings[1..];
      if settings[0].HooksField? {
        NoneFound(rest);
      } else {
        RemovedHasNone(rest);
        assert Removed(settings)[1..] == Removed(rest);
      }
    }
  }

  lemma {:induction false} NoneFound(settings: Settings)
    requires forall f <- settings :: !f.HooksField?
    ensures HooksIn(settings) == Some([])
    decreases |settings|
  {
    if settings != [] {
      assert settings[0] in settings;
      NoneFound(settings[1..]);
    }
  }

  lemma WithHooksIsRead(settings: Settings, hooks: Hooks)
    requires OneHooks(settings)
    ensures HooksIn(WithHooks(settings, hooks)) == Some(hooks)
  {
    InsertedIsRead(settings, hooks);
    RemovedHasNone(settings);
  }

  /** For all settings: updating (again, for a moved program, or to uninstall) after an install gives
      what updating alone gives, exactly when the installed program's path contains "offdesk". So
      installing twice is installing once, and uninstalling leaves nothing of the install. */
  lemma UpdateForgetsInstallIff(settings: Settings, exe: string, next: string, install: bool)
    requires OneHooks(settings) && HooksIn(settings).Some?
    ensures Updated(settings, exe, true).Ok?
    ensures Updated(Updated(settings, exe, true).value, next, install) == Updated(settings, next, install) <==>
            Contains(exe, NAME)
  {
    var hooks := HooksIn(settings).value;
    var installed := NewHooks(hooks, exe, true);
    PushAllCounts(Clean(hooks), exe, EVENTS);
    assert installed != [];
    InsertedIsRead(settings, installed);
    NewHooksAgain(hooks, exe, next, install);
    var a, b := NewHooks(installed, next, install), NewHooks(hooks, next, install);
    assert WithHooks(Inserted(settings, installed), a) == WithHooks(settings, a);
    WithHooksIsRead(settings, a);
    WithHooksIsRead(settings, b);
  }

  /** What a person put there: a group without a list of handlers, or a handler in its group. */
  datatype Item = Bare(event: string, rest: string) | Of(event: string, rest: string, handler: Handler)

  function OwnItems(event: string, rest: string, handlers: seq<Handler>): seq<Item>
    decreases |handlers|
  {
    if handlers == [] then []
    else if Ours(handlers[0]) then OwnItems(event, rest, handlers[1..])
    else [Of(event, rest, handlers[0])] + OwnItems(event, rest, handlers[1..])
  }

  function OwnInGroups(event: string, groups: seq<Group>): seq<Item>
    decreases |groups|
  {
    if groups == [] then []
    else
      (if groups[0].handlers == None then [Bare(event, groups[0].rest)]
       else OwnItems(event, groups[0].rest, groups[0].handlers.value)) + OwnInGroups(event, groups[1..])
  }

  /** A person's own hooks for `event`, in order. */
  function OwnIn(hooks: Hooks, event: string): seq<Item>
    decreases |hooks|
  {
    if hooks == [] then []
    else (if hooks[0].event == event then OwnInGroups(event, hooks[0].groups) else []) + OwnIn(hooks[1..], event)
  }

  lemma {:induction false} OwnItemsKept(event: string, rest: string, handlers: seq<Handler>)
    ensures OwnItems(event, rest, OwnHandlers(handlers)) == OwnItems(event, rest, handlers)
    ensures OwnHandlers(handlers) == [] ==> OwnItems(event, rest, handlers) == []
    decreases |handlers|
  {
    if handlers != [] {
      OwnItemsKept(event, rest, handlers[1..]);
      if !Ours(handlers[0]) {
        assert OwnHandlers(handlers)[1..] == OwnHandlers(handlers[1..]);
      }
    }
  }

  lemma {:induction false} OwnGroupsKept(event: string, groups: seq<Group>)
    ensures OwnInGroups(event, CleanGroups(groups)) == OwnInGroups(event, groups)
    decreases |groups|
  {
    if groups != [] {
      OwnGroupsKept(event, groups[1..]);
      if groups[0].handlers.Some? {
        OwnItemsKept(event, groups[0].rest, groups[0].handlers.value);
      }
      if Kept(CleanGroup(groups[0])) {
        assert CleanGroups(groups)[1..] == CleanGroups(groups[1..]);
      }
    }
  }

  lemma {:induction false} OwnKeptByClean(hooks: Hooks, event: string)
    ensures OwnIn(Clean(hooks), event) == OwnIn(hooks, event)
    decreases |hooks|
  {
    if hooks != [] {
      OwnKeptByClean(hooks[1..], event);
      OwnGroupsKept(event, hooks[0].groups);
      if CleanGroups(hooks[0].groups) != [] {
        assert Clean(hooks)[1..] == Clean(hooks[1..]);
      }
    }
  }

  lemma {:induction false} OwnInGroupsSplits(event: string, a: seq<Group>, b: seq<Group>)
    ensures OwnInGroups(event, a + b) == OwnInGroups(event, a) + OwnInGroups(event, b)
    decreases |a|
  {
    if a == [] {
      assert a + b == b;
    } else {
      assert (a + b)[1..] == a[1..] + b;
      OwnInGroupsSplits(event, a[1..], b);
    }
  }

  predicate Has(hooks: Hooks, event: string)
    decreases |hooks|
  {
    hooks != [] && (hooks[0].event == event || Has(hooks[1..], event))
  }

  /** "hooks" is an object: no two of its keys are the same. */
  predicate EventsOnce(hooks: Hooks)
    decreases |hooks|
  {
    hooks != [] ==> !Has(hooks[1..], hooks[0].event) && EventsOnce(hooks[1..])
  }

  lemma {:induction false} CleanHas(hooks: Hooks, event: string)
    requires Has(Clean(hooks), event)
    ensures Has(hooks, event)
    decreases |hooks|
  {
    if hooks != [] && hooks[0].event != event {
      assert Clean(hooks) == Clean(hooks[1..]) || Clean(hooks)[1..] == Clean(hooks[1..]);
      CleanHas(hooks[1..], event);
    }
  }

  lemma {:induction false} CleanKeepsOnce(hooks: Hooks)
    requires EventsOnce(hooks)
    ensures EventsOnce(Clean(hooks))
    decreases |hooks|
  {
    if hooks != [] {
      CleanKeepsOnce(hooks[1..]);
      if CleanGroups(hooks[0].groups) != [] {
        assert Clean(hooks)[1..] == Clean(hooks[1..]);
        if Has(Clean(hooks[1..]), hooks[0].event) {
          CleanHas(hooks[1..], hooks[0].event);
        }
      }
    }
  }

  lemma PushRest(hooks: Hooks, pushed: string, g: Group)
    requires hooks != []
    ensures Push(hooks, pushed, g) != [] && Push(hooks, pushed, g)[0].event == hooks[0].event
    ensures Push(hooks, pushed, g)[1..] ==
            if hooks[0].event == pushed then hooks[1..] else Push(hooks[1..], pushed, g)
  {
  }

  lemma {:induction false} PushHas(hooks: Hooks, pushed: string, g: Group, event: string)
    ensures Has(Push(hooks, pushed, g), event) <==> Has(hooks, event) || event == pushed
    decreases |hooks|
  {
    if hooks != [] {
      PushRest(hooks, pushed, g);
      PushHas(hooks[1..], pushed, g, event);
    }
  }

  lemma {:induction false} PushKeepsOnce(hooks: Hooks, pushed: string, g: Group)
    requires EventsOnce(hooks)
    ensures EventsOnce(Push(hooks, pushed, g))
    decreases |hooks|
  {
    if hooks != [] {
      PushRest(hooks, pushed, g);
      if hooks[0].event != pushed {
        PushKeepsOnce(hooks[1..], pushed, g);
        PushHas(hooks[1..], pushed, g, hooks[0].event);
      }
    }
  }

  lemma {:induction false} AbsentHasNone(hooks: Hooks, event: string)
    requires !Has(hooks, event)
    ensures OwnIn(hooks, event) == []
    decreases |hooks|
  {
    if hooks != [] {
      AbsentHasNone(hooks[1..], event);
    }
  }

  /** What a pushed handler looks like to the person: nothing if it is recognised. */
  function Added(event: string, h: Handler): seq<Item> { if Ours(h) then [] else [Of(event, "", h)] }

  lemma OwnInOne(event: string, h: Handler)
    ensures OwnInGroups(event, [Group(Some([h]), "")]) == Added(event, h)
  {
    assert OwnItems(event, "", [h]) == Added(event, h);
  }

  lemma {:induction false} OwnAfterPush(hooks: Hooks, pushed: string, h: Handler, event: string)
    requires EventsOnce(hooks)
    ensures OwnIn(Push(hooks, pushed, Group(Some([h]), "")), event) ==
            OwnIn(hooks, event) + if event == pushed then Added(event, h) else []
    decreases |hooks|
  {
    var g := Group(Some([h]), "");
    OwnInOne(event, h);
    if hooks != [] {
      PushRest(hooks, pushed, g);
      if hooks[0].event == pushed {
        OwnInGroupsSplits(event, hooks[0].groups, [g]);
        if event == pushed {
          AbsentHasNone(hooks[1..], event);
        }
      } else {
        OwnAfterPush(hooks[1..], pushed, h, event);
      }
    }
  }

  lemma FirstOrRest(events: seq<string>)
    requires events != []
    ensures forall x :: x in events <==> x == events[0] || x in events[1..]
  {
    assert events == [events[0]] + events[1..];
  }

  lemma {:induction false} OwnAfterPushAll(hooks: Hooks, exe: string, events: seq<string>, event: string)
    requires EventsOnce(hooks) && Distinct(events) && forall e <- events :: e in EVENTS
    ensures OwnIn(PushAll(hooks, exe, events), event) ==
            OwnIn(hooks, event) + if event in events then Added(event, OurHandler(exe, event)) else []
    decreases |events|
  {
    if events != [] {
      var first, rest := events[0], events[1..];
      var after := Push(hooks, first, OurGroup(exe, first));
      PushKeepsOnce(hooks, first, OurGroup(exe, first));
      OwnAfterPush(hooks, first, OurHandler(exe, first), event);
      FirstOrRest(events);
      OwnAfterPushAll(after, exe, rest, event);
      if event == first {
        FirstIsNotAgain(events);
      }
    }
  }

  /** Offdesk's handlers in a list. */
  function OursAmong(handlers: seq<Handler>): seq<Handler>
    decreases |handlers|
  {
    if handlers == [] then []
    else if Ours(handlers[0]) then [handlers[0]] + OursAmong(handlers[1..])
    else OursAmong(handlers[1..])
  }

  function OursInGroups(groups: seq<Group>): seq<Handler>
    decreases |groups|
  {
    if groups == [] then []
    else (if groups[0].handlers.Some? then OursAmong(groups[0].handlers.value) else []) + OursInGroups(groups[1..])
  }

  /** Offdesk's handlers for `event`, in order. */
  function OursIn(hooks: Hooks, event: string): seq<Handler>
    decreases |hooks|
  {
    if hooks == [] then []
    else if hooks[0].event == event then OursInGroups(hooks[0].groups) + OursIn(hooks[1..], event)
    else OursIn(hooks[1..], event)
  }

  lemma {:induction false} OwnHasNoneOfOurs(handlers: seq<Handler>)
    ensures OursAmong(OwnHandlers(handlers)) == []
    decreases |handlers|
  {
    if handlers != [] {
      OwnHasNoneOfOurs(handlers[1..]);
      if !Ours(handlers[0]) {
        assert OwnHandlers(handlers)[1..] == OwnHandlers(handlers[1..]);
      }
    }
  }

  lemma {:induction false} CleanGroupsHaveNoneOfOurs(groups: seq<Group>)
    ensures OursInGroups(CleanGroups(groups)) == []
    decreases |groups|
  {
    if groups != [] {
      CleanGroupsHaveNoneOfOurs(groups[1..]);
      if groups[0].handlers.Some? {
        OwnHasNoneOfOurs(groups[0].handlers.value);
      }
      if Kept(CleanGroup(groups[0])) {
        assert CleanGroups(groups)[1..] == CleanGroups(groups[1..]);
      }
    }
  }

  lemma {:induction false} CleanHasNoneOfOurs(hooks: Hooks, event: string)
    ensures OursIn(Clean(hooks), event) == []
    decreases |hooks|
  {
    if hooks != [] {
      CleanHasNoneOfOurs(hooks[1..], event);
      CleanGroupsHaveNoneOfOurs(hooks[0].groups);
      if CleanGroups(hooks[0].groups) != [] {
        assert Clean(hooks)[1..] == Clean(hooks[1..]);
      }
    }
  }

  lemma {:induction false} OursInGroupsSplits(a: seq<Group>, b: seq<Group>)
    ensures OursInGroups(a + b) == OursInGroups(a) + OursInGroups(b)
    decreases |a|
  {
    if a == [] {
      assert a + b == b;
    } else {
      assert (a + b)[1..] == a[1..] + b;
      OursInGroupsSplits(a[1..], b);
    }
  }

  lemma {:induction false} PushAddsOurs(hooks: Hooks, pushed: string, h: Handler, event: string)
    requires Ours(h) && OursIn(hooks, pushed) == []
    ensures OursIn(Push(hooks, pushed, Group(Some([h]), "")), event) ==
            if event == pushed then [h] else OursIn(hooks, event)
    decreases |hooks|
  {
    var g := Group(Some([h]), "");
    assert OursAmong([h]) == [h];
    assert OursInGroups([g]) == [h];
    if hooks != [] {
      if hooks[0].event == pushed {
        OursInGroupsSplits(hooks[0].groups, [g]);
        assert Push(hooks, pushed, g)[1..] == hooks[1..];
      } else {
        PushAddsOurs(hooks[1..], pushed, h, event);
        assert Push(hooks, pushed, g)[1..] == Push(hooks[1..], pushed, g);
      }
    }
  }

  ghost predicate Distinct(events: seq<string>) {
    forall i, j :: 0 <= i < j < |events| ==> events[i] != events[j]
  }

  lemma {:induction false} PushAllAddsOurs(hooks: Hooks, exe: string, events: seq<string>, event: string)
    requires Contains(exe, NAME) && Distinct(events) && forall e <- events :: e in EVENTS
    requires forall e <- events :: OursIn(hooks, e) == []
    ensures OursIn(PushAll(hooks, exe, events), event) ==
            if event in events then [OurHandler(exe, event)] else OursIn(hooks, event)
    decreases |events|
  {
    if events != [] {
      var first, rest := events[0], events[1..];
      var after := Push(hooks, first, OurGroup(exe, first));
      RecognisedIff(exe, first);
      forall e <- rest ensures e in events && OursIn(after, e) == [] {
        var i :| 0 <= i < |rest| && rest[i] == e;
        assert events[i + 1] == e && e in events;
        PushAddsOurs(hooks, first, OurHandler(exe, first), e);
      }
      PushAddsOurs(hooks, first, OurHandler(exe, first), event);
      PushAllAddsOurs(after, exe, rest, event);
      FirstOrRest(events);
      if event == first {
        FirstIsNotAgain(events);
      }
    }
  }

  lemma FirstIsNotAgain(events: seq<string>)
    requires events != [] && Distinct(events)
    ensures events[0] !in events[1..]
  {
  }

  lemma EventsAreDistinct()
    ensures Distinct(EVENTS)
  {
  }

  /** After an install each of the eight events has exactly one handler of Offdesk's, the program's, and
      no other event has any; after an uninstall none has. */
  lemma InstalledOncePerEvent(settings: Settings, exe: string, install: bool, event: string)
    requires OneHooks(settings) && HooksIn(settings).Some? && (install ==> Contains(exe, NAME))
    ensures var after := Updated(settings, exe, install);
            && after.Ok? && HooksIn(after.value).Some?
            && OursIn(HooksIn(after.value).value, event) ==
               if install && event in EVENTS then [OurHandler(exe, event)] else []
  {
    var own := Clean(HooksIn(settings).value);
    WithHooksIsRead(settings, NewHooks(HooksIn(settings).value, exe, install));
    CleanHasNoneOfOurs(HooksIn(settings).value, event);
    if install {
      forall e <- EVENTS ensures OursIn(own, e) == [] {
        CleanHasNoneOfOurs(HooksIn(settings).value, e);
      }
      EventsAreDistinct();
      PushAllAddsOurs(own, exe, EVENTS, event);
    }
  }

  function Others(settings: Settings): seq<Field>
    decreases |settings|
  {
    if settings == [] then []
    else if settings[0].HooksField? then Others(settings[1..])
    else [settings[0]] + Others(settings[1..])
  }

  lemma {:induction false} OthersKept(settings: Settings, hooks: Hooks)
    ensures Others(WithHooks(settings, hooks)) == Others(settings)
    decreases |settings|
  {
    if settings != [] {
      var after := WithHooks(settings, hooks);
      if settings[0].HooksField? {
        assert hooks != [] ==> after[1..] == settings[1..];
      } else {
        OthersKept(settings[1..], hooks);
        assert after[1..] == WithHooks(settings[1..], hooks);
      }
    }
  }

  lemma OwnInNew(hooks: Hooks, exe: string, install: bool, event: string)
    requires EventsOnce(hooks)
    ensures OwnIn(NewHooks(hooks, exe, install), event) == OwnIn(hooks, event) +
            (if install && event in EVENTS && !Contains(exe, NAME)
             then [Of(event, "", OurHandler(exe, event))] else [])
  {
    OwnKeptByClean(hooks, event);
    if install {
      CleanKeepsOnce(hooks);
      EventsAreDistinct();
      OwnAfterPushAll(Clean(hooks), exe, EVENTS, event);
      if event in EVENTS {
        RecognisedIff(exe, event);
      }
    }
  }

  /** A person's own handlers survive every update by any program, in order and in their groups, and so
      does every other key of the settings. Only an install by a program that is not recognised shows,
      as one handler more at the end of each of the eight events. */
  lemma OwnSurvives(settings: Settings, exe: string, install: bool, event: string)
    requires OneHooks(settings) && HooksIn(settings).Some? && EventsOnce(HooksIn(settings).value)
    ensures var after := Updated(settings, exe, install);
            && after.Ok? && HooksIn(after.value).Some?
            && OwnIn(HooksIn(after.value).value, event) == OwnIn(HooksIn(settings).value, event) +
               (if install && event in EVENTS && !Contains(exe, NAME)
                then [Of(event, "", OurHandler(exe, event))] else [])
            && Others(after.value) == Others(settings)
  {
    var hooks := HooksIn(settings).value;
    WithHooksIsRead(settings, NewHooks(hooks, exe, install));
    OwnInNew(hooks, exe, install, event);
    OthersKept(settings, NewHooks(hooks, exe, install));
  }

  // ---------- The shape of what is left ----------

  /** No event without groups, and no group with an empty list of handlers. */
  ghost predicate NothingEmpty(hooks: Hooks)
    decreases |hooks|
  {
    hooks != [] ==>
      hooks[0].groups != [] && (forall g <- hooks[0].groups :: g.handlers != Some([])) && NothingEmpty(hooks[1..])
  }

  lemma {:induction false} CleanGroupsLeaveNoneEmpty(groups: seq<Group>)
    ensures forall g <- CleanGroups(groups) :: g.handlers != Some([])
    decreases |groups|
  {
    if groups != [] {
      CleanGroupsLeaveNoneEmpty(groups[1..]);
    }
  }

  lemma {:induction false} CleanLeavesNothingEmpty(hooks: Hooks)
    ensures NothingEmpty(Clean(hooks))
    decreases |hooks|
  {
    if hooks != [] {
      CleanLeavesNothingEmpty(hooks[1..]);
      CleanGroupsLeaveNoneEmpty(hooks[0].groups);
      if CleanGroups(hooks[0].groups) != [] {
        assert Clean(hooks)[1..] == Clean(hooks[1..]);
      }
    }
  }

  lemma {:induction false} PushLeavesNothingEmpty(hooks: Hooks, event: string, g: Group)
    requires NothingEmpty(hooks) && g.handlers != Some([])
    ensures NothingEmpty(Push(hooks, event, g))
    decreases |hooks|
  {
    if hooks != [] {
      PushRest(hooks, event, g);
      if hooks[0].event != event {
        PushLeavesNothingEmpty(hooks[1..], event, g);
      }
    }
  }

  lemma {:induction false} PushAllLeavesNothingEmpty(hooks: Hooks, exe: string, events: seq<string>)
    requires NothingEmpty(hooks)
    ensures NothingEmpty(PushAll(hooks, exe, events))
    decreases |events|
  {
    if events != [] {
      PushLeavesNothingEmpty(hooks, events[0], OurGroup(exe, events[0]));
      PushAllLeavesNothingEmpty(Push(hooks, events[0], OurGroup(exe, events[0])), exe, events[1..]);
    }
  }

  /** Position `i` is where "hooks" is, or would be added. */
  ghost predicate HooksAt(settings: Settings, i: int) {
    && 0 <= i <= |settings|
    && (forall j :: 0 <= j < i ==> !settings[j].HooksField?)
    && (i < |settings| ==> settings[i].HooksField?)
  }

  lemma {:induction false} RemovedIs(settings: Settings, i: nat)
    requires HooksAt(settings, i)
    ensures Removed(settings) == settings[..i] + if i < |settings| then settings[i + 1..] else []
    decreases |settings|
  {
    if i > 0 {
      var rest := settings[1..];
      assert HooksAt(rest, i - 1);
      RemovedIs(rest, i - 1);
      assert [settings[0]] + rest[..i - 1] == settings[..i];
      assert i < |settings| ==> rest[i..] == settings[i + 1..];
    }
  }

  lemma {:induction false} InsertedIs(settings: Settings, hooks: Hooks, i: nat)
    requires HooksAt(settings, i)
    ensures Inserted(settings, hooks) ==
            settings[..i] + [HooksField(Some(hooks))] + if i < |settings| then settings[i + 1..] else []
    decreases |settings|
  {
    if i > 0 {
      var rest := settings[1..];
      assert HooksAt(rest, i - 1);
      InsertedIs(rest, hooks, i - 1);
      assert [settings[0]] + rest[..i - 1] == settings[..i];
      assert i < |settings| ==> rest[i..] == settings[i + 1..];
    }
  }

  lemma WithHooksIs(settings: Settings, hooks: Hooks, i: nat)
    requires HooksAt(settings, i)
    ensures WithHooks(settings, hooks) ==
            settings[..i] + (if hooks == [] then [] else [HooksField(Some(hooks))]) +
            if i < |settings| then settings[i + 1..] else []
  {
    RemovedIs(settings, i);
    InsertedIs(settings, hooks, i);
    assert settings[..i] + [] == settings[..i];
  }

  lemma NewLeavesNothingEmpty(hooks: Hooks, exe: string, install: bool)
    ensures NothingEmpty(NewHooks(hooks, exe, install))
  {
    CleanLeavesNothingEmpty(hooks);
    if install {
      PushAllLeavesNothingEmpty(Clean(hooks), exe, EVENTS);
    }
  }

  /** The hooks stay where they were among the keys, or come last if there were none; nothing empty is left
      behind, not even the key. */
  lemma HooksStayInPlace(settings: Settings, exe: string, install: bool, i: nat)
    requires OneHooks(settings) && HooksIn(settings).Some? && HooksAt(settings, i)
    ensures var after := Updated(settings, exe, install);
            && after.Ok? && HooksIn(after.value).Some?
            && var now := HooksIn(after.value).value;
               && NothingEmpty(now)
               && after.value == settings[..i] + (if now == [] then [] else [HooksField(Some(now))]) +
                                 if i < |settings| then settings[i + 1..] else []
  {
    var hooks := HooksIn(settings).value;
    var now := NewHooks(hooks, exe, install);
    WithHooksIsRead(settings, now);
    WithHooksIs(settings, now, i);
    NewLeavesNothingEmpty(hooks, exe, install);
  }

  /** The groups under an event, none if it is not there. */
  function GroupsOf(hooks: Hooks, event: string): seq<Group>
    decreases |hooks|
  {
    if hooks == [] then []
    else if hooks[0].event == event then hooks[0].groups
    else GroupsOf(hooks[1..], event)
  }

  lemma {:induction false} AbsentHasNoGroups(hooks: Hooks, event: string)
    requires !Has(hooks, event)
    ensures GroupsOf(hooks, event) == []
    decreases |hooks|
  {
    if hooks != [] {
      AbsentHasNoGroups(hooks[1..], event);
    }
  }

  lemma {:induction false} GroupsAfterClean(hooks: Hooks, event: string)
    requires EventsOnce(hooks)
    ensures GroupsOf(Clean(hooks), event) == CleanGroups(GroupsOf(hooks, event))
    decreases |hooks|
  {
    if hooks != [] {
      GroupsAfterClean(hooks[1..], event);
      if CleanGroups(hooks[0].groups) != [] {
        assert Clean(hooks)[1..] == Clean(hooks[1..]);
      } else if hooks[0].event == event {
        AbsentHasNoGroups(hooks[1..], event);
      }
    }
  }

  lemma {:induction false} GroupsAfterPush(hooks: Hooks, pushed: string, g: Group, event: string)
    ensures GroupsOf(Push(hooks, pushed, g), event) ==
            GroupsOf(hooks, event) + if event == pushed then [g] else []
    decreases |hooks|
  {
    if hooks != [] {
      PushRest(hooks, pushed, g);
      if hooks[0].event != pushed {
        GroupsAfterPush(hooks[1..], pushed, g, event);
      }
    }
  }

  lemma {:induction false} GroupsAfterPushAll(hooks: Hooks, exe: string, events: seq<string>, event: string)
    requires Distinct(events)
    ensures GroupsOf(PushAll(hooks, exe, events), event) ==
            GroupsOf(hooks, event) + if event in events then [OurGroup(exe, event)] else []
    decreases |events|
  {
    if events != [] {
      GroupsAfterPush(hooks, events[0], OurGroup(exe, events[0]), event);
      GroupsAfterPushAll(Push(hooks, events[0], OurGroup(exe, events[0])), exe, events[1..], event);
      FirstOrRest(events);
      if event == events[0] {
        FirstIsNotAgain(events);
      }
    }
  }

  /** Offdesk's group comes last under each of the eight events, after what is left of the person's. */
  lemma InstalledComesLast(settings: Settings, exe: string, install: bool, event: string)
    requires OneHooks(settings) && HooksIn(settings).Some? && EventsOnce(HooksIn(settings).value)
    ensures var after := Updated(settings, exe, install);
            && after.Ok? && HooksIn(after.value).Some?
            && GroupsOf(HooksIn(after.value).value, event) ==
               CleanGroups(GroupsOf(HooksIn(settings).value, event)) +
               if install && event in EVENTS
               then [Group(Some([Handler(Some(HookCommand(exe, event)), OUR_REST)]), "")] else []
  {
    var hooks := HooksIn(settings).value;
    WithHooksIsRead(settings, NewHooks(hooks, exe, install));
    GroupsAfterClean(hooks, event);
    if install {
      EventsAreDistinct();
      GroupsAfterPushAll(Clean(hooks), exe, EVENTS, event);
    }
  }

  /** Settings whose first "hooks" is not valid are left alone, and only those. */
  lemma {:induction false} InvalidIff(settings: Settings)
    ensures HooksIn(settings) == None <==>
            exists k :: 0 <= k < |settings| && settings[k] == HooksField(None) &&
                        forall j :: 0 <= j < k ==> !settings[j].HooksField?
  {
    if settings != [] && !settings[0].HooksField? {
      InvalidIff(settings[1..]);
      if HooksIn(settings) == None {
        var k :| 0 <= k < |settings| - 1 && settings[1..][k] == HooksField(None) &&
                 forall j :: 0 <= j < k ==> !settings[1..][j].HooksField?;
        assert settings[k + 1] == HooksField(None);
        assert forall j :: 0 < j < k + 1 ==> settings[j] == settings[1..][j - 1];
      }
      forall k | 0 <= k < |settings| && settings[k] == HooksField(None) &&
                 forall j :: 0 <= j < k ==> !settings[j].HooksField?
        ensures HooksIn(settings) == None
      {
        assert settings[1..][k - 1] == HooksField(None);
        assert forall j :: 0 <= j < k - 1 ==> settings[1..][j] == settings[j + 1];
      }
    }
  }

  lemma RefusedIff(settings: Settings, exe: string, install: bool)
    ensures Updated(settings, exe, install).Err? <==>
            exists k :: 0 <= k < |settings| && settings[k] == HooksField(None) &&
                        forall j :: 0 <= j < k ==> !settings[j].HooksField?
  {
    InvalidIff(settings);
  }
}
