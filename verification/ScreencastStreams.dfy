/** `Streams` as the hub runs it: a map of fan-outs, the epoch clock and the remembered epochs. */
module ScreencastStreams {
  import opened Wrappers
  import opened Screencast
  import opened ScreencastFanout
  import opened ScreencastTable

  /** The actions of a call about one browser, as a message to that browser's node. */
  function ToldTo(key: Key, actions: seq<NodeAction>): map<Key, NodeAction> {
    Tell(key, if actions == [] then None else Some(actions[0]))
  }

  class Streams {
    var nextViewer: nat
    var fanouts: map<Key, Fanout>
    var epochClock: nat
    var lastEpochs: map<Key, nat>
    ghost var states: map<Key, FanoutState>    // what each fan-out's fields hold
    ghost var repr: set<Fanout>

    /** Each key owns its fan-out, as the Rust map does; a live key has no remembered epoch. */
    ghost predicate Valid()
      reads this, repr
    {
      && states.Keys == fanouts.Keys
      && (forall k <- fanouts :: fanouts[k] in repr && fanouts[k].key == k && fanouts[k].State() == states[k])
      && (forall k <- lastEpochs :: k !in fanouts)
    }

    ghost function StateOf(): Table
      reads this
    {
      Table(states, lastEpochs, epochClock, nextViewer)
    }

    constructor (millis: nat)
      ensures Valid() && fresh(repr) && StateOf() == Table(map[], map[], millis, 0)
    {
      nextViewer, fanouts, epochClock, lastEpochs := 0, map[], millis, map[];
      states, repr := map[], {};
    }

    method Retire(key: Key, fanout: Fanout, remember: bool)
      modifies this`epochClock, this`lastEpochs
      ensures epochClock == Larger(old(epochClock), fanout.epoch)
      ensures lastEpochs == if remember then old(lastEpochs)[key := fanout.epoch] else old(lastEpochs) - {key}
    {
      epochClock := Larger(epochClock, fanout.epoch);
      if remember {
        lastEpochs := lastEpochs[key := fanout.epoch];
      } else {
        lastEpochs := lastEpochs - {key};
      }
    }

    /** The key's fan-out, made with `seed` as its epoch if there is none. */
    method EntryOrNew(key: Key, seed: nat) returns (fanout: Fanout)
      requires Valid() && key !in lastEpochs
      modifies this`fanouts, this`repr, this`states
      ensures Valid() && key in fanouts && fanout == fanouts[key] && fresh(repr - old(repr))
      ensures states == old(states)[key := if key in old(states) then old(states)[key] else NewFanout(seed)]
      ensures fanout in repr && (fanout in old(repr) || fresh(fanout))
    {
      if key !in fanouts {
        var created := new Fanout(key, seed);
        fanouts := fanouts[key := created];
        repr := repr + {created};
        states := states[key := created.State()];
      }
      fanout := fanouts[key];
    }

    /** Seats a viewer in the key's fan-out. */
    method Seat(key: Key, seed: nat, id: nat, params: Params) returns (actions: seq<NodeAction>)
      requires Valid() && key !in lastEpochs
      modifies this`fanouts, this`repr, this`states, repr
      ensures Valid() && fresh(repr - old(repr))
      ensures var f := if key in old(states) then old(states)[key] else NewFanout(seed);
              var e := Added(f, id, params, Channel(true, []));
              states == old(states)[key := e.fanout] && actions == Actions(e.action)
    {
      var fanout := EntryOrNew(key, seed);
      actions := fanout.AddViewer(id, params, Channel(true, []));
      PutTwice(old(states), key, states[key], fanout.State());
      states := states[key := fanout.State()];
    }

    method AddViewer(key: Key, params: Params) returns (id: nat, actions: seq<NodeAction>)
      requires Valid()
      modifies this, repr
      ensures Valid() && fresh(repr - old(repr))
      ensures id == old(nextViewer) + 1 && |actions| <= 1
      ensures Next(old(StateOf()), Op.AddViewer(key, params), StateOf(), ToldTo(key, actions))
    {
      ghost var t := StateOf();
      nextViewer := nextViewer + 1;
      id := nextViewer;
      var remembered := if key in lastEpochs then lastEpochs[key] else 0;
      lastEpochs := lastEpochs - {key};
      actions := Seat(key, Larger(remembered, epochClock), id, params);
      ghost var e := JoinEffect(t, key, params);
      assert states == t.fanouts[key := e.fanout] && actions == Actions(e.action);
      assert StateOf() == AfterJoin(t, key, params);
      OneTold(key, e.action);
      JoinNext(t, key, params);
    }

    /** Drops a fan-out nobody watches any more, remembering its epoch. */
    method DropIfEmpty(key: Key)
      requires Valid() && key in fanouts
      modifies this
      ensures Valid() && repr == old(repr)
      ensures StateOf() == AfterWith(old(StateOf()), key, old(states)[key])
    {
      var fanout := fanouts[key];
      if fanout.IsEmpty() {
        fanouts := fanouts - {key};
        states := states - {key};
        Retire(key, fanout, true);
      } else {
        assert states == states[key := states[key]];
      }
    }

    method RemoveViewer(key: Key, id: nat) returns (actions: seq<NodeAction>)
      requires Valid()
      modifies this, repr
      ensures Valid() && repr == old(repr) && |actions| <= 1
      ensures Next(old(StateOf()), Op.RemoveViewer(key, id), StateOf(), ToldTo(key, actions))
    {
      ghost var t := StateOf();
      if key !in fanouts {
        NothingThere(t, Op.RemoveViewer(key, id), key);
        return [];
      }
      actions := fanouts[key].RemoveViewer(id);
      states := states[key := fanouts[key].State()];
      DropIfEmpty(key);
      AfterWithAgain(t, key, Removed(t.fanouts[key], id).fanout);
      RemoveNext(t, key, id);
    }

    method SetParams(key: Key, id: nat, params: Params) returns (actions: seq<NodeAction>)
      requires Valid()
      modifies this, repr
      ensures Valid() && repr == old(repr) && |actions| <= 1
      ensures Next(old(StateOf()), Op.SetParams(key, id, params), StateOf(), ToldTo(key, actions))
    {
      ghost var t := StateOf();
      if key !in fanouts {
        NothingThere(t, Op.SetParams(key, id, params), key);
        return [];
      }
      actions := fanouts[key].SetParams(id, params);
      states := states[key := fanouts[key].State()];
      DropIfEmpty(key);
      AfterWithAgain(t, key, WithParams(t.fanouts[key], id, params).fanout);
      SetNext(t, key, id, params);
    }

    method ViewerAck(key: Key, id: nat) returns (actions: seq<NodeAction>)
      requires Valid()
      modifies this, repr
      ensures Valid() && repr == old(repr) && |actions| <= 1
      ensures Next(old(StateOf()), Op.ViewerAck(key, id), StateOf(), ToldTo(key, actions))
    {
      ghost var t := StateOf();
      if key !in fanouts {
        NothingThere(t, Op.ViewerAck(key, id), key);
        return [];
      }
      actions := fanouts[key].ViewerAck(id);
      states := states[key := fanouts[key].State()];
      DropIfEmpty(key);
      AfterWithAgain(t, key, Acked(t.fanouts[key], id).fanout);
      AckNext(t, key, id);
    }

    method OnFrame(key: Key, frame: Frame) returns (actions: seq<NodeAction>)
      requires Valid()
      modifies this, repr
      ensures Valid() && repr == old(repr) && |actions| <= 1
      ensures Next(old(StateOf()), Op.OnFrame(key, frame), StateOf(), ToldTo(key, actions))
    {
      ghost var t := StateOf();
      if key in fanouts {
        actions := fanouts[key].OnFrame(frame);
        states := states[key := fanouts[key].State()];
      } else {
        var epoch := if key in lastEpochs then lastEpochs[key] else epochClock;
        actions := [Stop(epoch)];
      }
      FrameNext(t, key, frame, StateOf());
    }

    /** Takes a fan-out out of the table and tells its viewers. */
    method End(key: Key)
      requires Valid() && key in fanouts
      modifies this, fanouts[key]
      ensures Valid() && repr == old(repr) && fanouts == old(fanouts) - {key}
      ensures StateOf() ==
              Table(old(states) - {key}, old(lastEpochs), Larger(old(epochClock), old(states)[key].epoch),
                    old(nextViewer))
      ensures old(fanouts[key]).viewers == AllTold(old(states)[key]).viewers
    {
      var fanout := fanouts[key];
      fanouts := fanouts - {key};
      states := states - {key};
      fanout.Destroy();
      Retire(key, fanout, false);
    }

    method DestroyBrowser(key: Key)
      requires Valid()
      modifies this, repr
      ensures Valid() && repr == old(repr)
      ensures key in old(fanouts) ==> old(fanouts[key]).viewers == AllTold(old(states)[key]).viewers
      ensures Next(old(StateOf()), Op.DestroyBrowser(key), StateOf(), map[])
    {
      ghost var t := StateOf();
      if key in fanouts {
        End(key);
      }
      lastEpochs := lastEpochs - {key};
      DestroyNext(t, key, StateOf());
    }

    method EndAll(keys: set<Key>)
      requires Valid() && keys <= fanouts.Keys
      modifies this, repr
      ensures Valid() && repr == old(repr)
      ensures StateOf() ==
              Table(old(states) - keys, old(lastEpochs), ClockAfter(old(epochClock), old(states), keys),
                    old(nextViewer))
      ensures forall k <- keys :: old(fanouts)[k].viewers == AllTold(old(states)[k]).viewers
    {
      var todo := keys;
      ghost var done := {};
      while todo != {}
        invariant Valid() && done + todo == keys && done !! todo && repr == old(repr)
        invariant fanouts == old(fanouts) - done
        invariant StateOf() ==
                  Table(old(states) - done, old(lastEpochs), ClockAfter(old(epochClock), old(states), done),
                        old(nextViewer))
        invariant forall k <- done :: old(fanouts)[k].viewers == AllTold(old(states)[k]).viewers
        decreases todo
      {
        var key :| key in todo;
        ClockAfterExtends(old(epochClock), old(states), done, key);
        MinusTwice(old(fanouts), done, key);
        MinusTwice(old(states), done, key);
        End(key);
        todo, done := todo - {key}, done + {key};
      }
    }

    method Forget(machine: string)
      requires Valid()
      modifies this`lastEpochs
      ensures Valid() && IsWithout(lastEpochs, old(lastEpochs), machine)
    {
      lastEpochs := map k | k in lastEpochs && k.machine != machine :: lastEpochs[k];
    }

    method DestroyMachine(machine: string)
      requires Valid()
      modifies this, repr
      ensures Valid() && repr == old(repr)
      ensures forall k <- old(fanouts) :: k.machine == machine ==>
              old(fanouts)[k].viewers == AllTold(old(states)[k]).viewers
      ensures Next(old(StateOf()), Op.DestroyMachine(machine), StateOf(), map[])
    {
      ghost var t := StateOf();
      var keys := set k | k in fanouts && k.machine == machine;
      EndAll(keys);
      Forget(machine);
      assert keys == set k | k in t.fanouts && k.machine == machine;
      DestroyMachineNext(t, machine, StateOf());
    }

    /** One browser at a resync: restarted if the node still has it, ended otherwise. */
    method ResyncOne(key: Key, present: set<string>) returns (action: Option<NodeAction>)
      requires Valid() && key in fanouts
      modifies this, fanouts[key]
      ensures Valid() && repr == old(repr)
      ensures (StateOf(), action) == ResyncEffect(present, old(StateOf()), key)
      ensures key.browser !in present ==> old(fanouts[key]).viewers == AllTold(old(states)[key]).viewers
    {
      if key.browser in present {
        action := fanouts[key].RestartAction();
        states := states[key := fanouts[key].State()];
      } else {
        End(key);
        action := None;
      }
    }

    method ResyncAll(machine: string, keys: set<Key>, present: set<string>)
      returns (actions: seq<(string, NodeAction)>, ghost told: map<Key, NodeAction>)
      requires Valid() && keys <= fanouts.Keys && forall k <- keys :: k.machine == machine
      modifies this, repr
      ensures Valid() && repr == old(repr)
      ensures ResyncedTo(old(StateOf()), present, keys, StateOf(), told)
      ensures Lists(machine, actions, told)
    {
      ghost var t, done := StateOf(), {};
      var todo := keys;
      actions, told := [], map[];
      while todo != {}
        invariant Valid() && done + todo == keys && done !! todo && repr == old(repr)
        invariant ResyncedTo(t, present, done, StateOf(), told)
        invariant Lists(machine, actions, told)
        decreases todo
      {
        var key :| key in todo;
        ResyncedMore(t, present, done, StateOf(), told, key);
        var action := ResyncOne(key, present);
        ListsMore(machine, actions, told, key, action);
        actions := actions + (if action.Some? then [(key.browser, action.value)] else []);
        told := told + Tell(key, action);
        assert ResyncedTo(t, present, done + {key}, StateOf(), told);
        Moved(done, todo, key);
        todo, done := todo - {key}, done + {key};
      }
    }

    /** A restart for every browser of the machine that survived, an end for every one that did not. */
    method ResyncMachine(machine: string, present: set<string>)
      returns (actions: seq<(string, NodeAction)>, ghost told: map<Key, NodeAction>)
      requires Valid()
      modifies this, repr
      ensures Valid() && repr == old(repr)
      ensures Next(old(StateOf()), Op.ResyncMachine(machine, present), StateOf(), told)
      ensures Lists(machine, actions, told)
    {
      ghost var t := StateOf();
      var keys := set k | k in fanouts && k.machine == machine;
      assert keys == set k | k in t.fanouts && k.machine == machine;
      actions, told := ResyncAll(machine, keys, present);
      ResyncNext(t, machine, present, StateOf(), told);
    }
  }

  lemma OneTold(key: Key, action: Option<NodeAction>)
    ensures ToldTo(key, Actions(action)) == Tell(key, action)
  {
  }

  lemma Moved(done: set<Key>, todo: set<Key>, key: Key)
    requires key in todo && done !! todo
    ensures (done + {key}) + (todo - {key}) == done + todo && (done + {key}) !! (todo - {key})
  {
  }

  lemma AfterWithAgain(t: Table, key: Key, f: FanoutState)
    ensures AfterWith(t.(fanouts := t.fanouts[key := f]), key, f) == AfterWith(t, key, f)
  {
    PutTwice(t.fanouts, key, f, f);
  }

  /** `actions` names each browser that is told something once, with what it is told. */
  ghost predicate Lists(machine: string, actions: seq<(string, NodeAction)>, told: map<Key, NodeAction>)
    decreases |actions|
  {
    if actions == [] then told == map[]
    else
      var last := actions[|actions| - 1];
      var key := Key(machine, last.0);
      key in told && told[key] == last.1 && Lists(machine, actions[..|actions| - 1], told - {key})
  }

  lemma ListsMore(machine: string, actions: seq<(string, NodeAction)>, told: map<Key, NodeAction>, key: Key,
      action: Option<NodeAction>)
    requires Lists(machine, actions, told) && key !in told && key.machine == machine
    ensures Lists(machine, actions + (if action.Some? then [(key.browser, action.value)] else []),
                  told + Tell(key, action))
  {
    if action.Some? {
      var more := actions + [(key.browser, action.value)];
      assert more[..|more| - 1] == actions;
      assert Key(machine, key.browser) == key;
      assert told + Tell(key, action) - {key} == told;
    } else {
      assert told + Tell(key, action) == told && actions + [] == actions;
    }
  }
}
