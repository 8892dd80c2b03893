/** The whole `Streams` table, one operation at a time: every key takes its own `KeyAfter` step. */
module ScreencastTable {
  import opened Wrappers
  import opened Screencast

  datatype Table = Table(fanouts: map<Key, FanoutState>, lastEpochs: map<Key, nat>, clock: nat, top: nat)

  datatype Op =
    | AddViewer(key: Key, params: Params)
    | RemoveViewer(key: Key, id: nat)
    | SetParams(key: Key, id: nat, params: Params)
    | ViewerAck(key: Key, id: nat)
    | OnFrame(key: Key, frame: Frame)
    | DestroyBrowser(key: Key)
    | DestroyMachine(machine: string)
    | ResyncMachine(machine: string, present: set<string>)
    | ReceiverDropped(key: Key, id: nat)      // the environment's step

  function At<T>(m: map<Key, T>, k: Key): Option<T> {
    if k in m then Some(m[k]) else None
  }

  function Put<T>(m: map<Key, T>, k: Key, v: Option<T>): map<Key, T> {
    if v.Some? then m[k := v.value] else m - {k}
  }

  lemma PutTwice<T>(m: map<Key, T>, k: Key, a: T, b: T)
    ensures m[k := a][k := b] == m[k := b] && m[k := a] - {k} == m - {k}
  {
  }

  lemma MinusTwice<T>(m: map<Key, T>, keys: set<Key>, k: Key)
    ensures m - keys - {k} == m - (keys + {k})
  {
  }

  function ViewOf(t: Table, k: Key): KeyView {
    KeyView(At(t.fanouts, k), At(t.lastEpochs, k), t.clock)
  }

  /** What `op` is to key `k`; a joining viewer gets the next number. */
  function Local(t: Table, op: Op, k: Key): LocalOp {
    match op
    case DestroyMachine(machine) => if k.machine == machine then Destroy else Idle
    case ResyncMachine(machine, present) =>
      if k.machine != machine || k !in t.fanouts then Idle else if k.browser in present then Restart else Destroy
    case AddViewer(key, params) => if k == key then Join(t.top + 1, params) else Idle
    case RemoveViewer(key, id) => if k == key then Leave(id) else Idle
    case SetParams(key, id, params) => if k == key then Adjust(id, params) else Idle
    case ViewerAck(key, id) => if k == key then Draw(id) else Idle
    case OnFrame(key, frame) => if k == key then FromNode(frame) else Idle
    case DestroyBrowser(key) => if k == key then Destroy else Idle
    case ReceiverDropped(key, id) => if k == key then Hangup(id) else Idle
  }

  ghost function EffectOn(t: Table, op: Op, k: Key): KeyEffect {
    KeyAfter(ViewOf(t, k), Local(t, op, k))
  }

  /** Key `k` and what its node is told follow from `op`, and the clock covers what `k` retires. */
  ghost predicate KeyNext(t: Table, op: Op, t': Table, told: map<Key, NodeAction>, k: Key) {
    var e := EffectOn(t, op, k);
    && At(t'.fanouts, k) == e.live && At(t'.lastEpochs, k) == e.last && At(told, k) == e.told
    && (e.retired.Some? ==> e.retired.value <= t'.clock)
  }

  ghost predicate Retires(t: Table, op: Op, k: Key, epoch: nat) {
    EffectOn(t, op, k).retired == Some(epoch)
  }

  /** `t'` and the messages `told` (at most one a key, in whatever order) follow `t` under `op`; the
      clock is the largest of what it was and the epochs retired. */
  ghost predicate Next(t: Table, op: Op, t': Table, told: map<Key, NodeAction>) {
    && (forall k: Key :: KeyNext(t, op, t', told, k))
    && t.clock <= t'.clock
    && (t'.clock == t.clock || exists k: Key :: Retires(t, op, k, t'.clock))
    && t'.top == (if op.AddViewer? then t.top + 1 else t.top)
  }

  function Tell(key: Key, a: Option<NodeAction>): map<Key, NodeAction> {
    if a.None? then map[] else map[key := a.value]
  }

  /** A call about one key, seen at the table. */
  lemma OneKeyNext(t: Table, op: Op, key: Key, e: KeyEffect, t': Table)
    requires !op.DestroyMachine? && !op.ResyncMachine? && op.key == key && e == EffectOn(t, op, key)
    requires t'.fanouts == Put(t.fanouts, key, e.live) && t'.lastEpochs == Put(t.lastEpochs, key, e.last)
    requires t'.clock == Larger(t.clock, e.retired.GetOr(0))
    requires t'.top == (if op.AddViewer? then t.top + 1 else t.top)
    ensures Next(t, op, t', Tell(key, e.told))
  {
    var told := Tell(key, e.told);
    forall k: Key
      ensures KeyNext(t, op, t', told, k)
    {
      if k != key {
        IdleKeyNext(t, op, t', told, k);
      }
    }
    if t'.clock != t.clock {
      assert Retires(t, op, key, t'.clock);
    }
  }

  lemma IdleKeyNext(t: Table, op: Op, t': Table, told: map<Key, NodeAction>, k: Key)
    requires Local(t, op, k) == Idle && k !in told
    requires At(t'.fanouts, k) == At(t.fanouts, k) && At(t'.lastEpochs, k) == At(t.lastEpochs, k)
    ensures KeyNext(t, op, t', told, k)
  {
  }

  ghost function JoinEffect(t: Table, key: Key, params: Params): Effect {
    var f := if key in t.fanouts then t.fanouts[key] else NewFanout(Larger(At(t.lastEpochs, key).GetOr(0), t.clock));
    Added(f, t.top + 1, params, Channel(true, []))
  }

  ghost function AfterJoin(t: Table, key: Key, params: Params): Table {
    Table(t.fanouts[key := JoinEffect(t, key, params).fanout], t.lastEpochs - {key}, t.clock, t.top + 1)
  }

  lemma JoinNext(t: Table, key: Key, params: Params)
    ensures Next(t, AddViewer(key, params), AfterJoin(t, key, params), Tell(key, JoinEffect(t, key, params).action))
  {
    OneKeyNext(t, AddViewer(key, params), key, EffectOn(t, AddViewer(key, params), key), AfterJoin(t, key, params));
  }

  /** The table after a call through `with` that took the key's fan-out to `f`. */
  function AfterWith(t: Table, key: Key, f: FanoutState): Table {
    if f.viewers == map[]
    then Table(t.fanouts - {key}, t.lastEpochs[key := f.epoch], Larger(t.clock, f.epoch), t.top)
    else t.(fanouts := t.fanouts[key := f])
  }

  lemma WithNext(t: Table, op: Op, key: Key, e: Effect, gone: map<nat, Channel>)
    requires op.RemoveViewer? || op.SetParams? || op.ViewerAck?
    requires op.key == key && key in t.fanouts && EffectOn(t, op, key) == Kept(ViewOf(t, key), e, gone)
    ensures Next(t, op, AfterWith(t, key, e.fanout), Tell(key, e.action))
  {
    var t' := AfterWith(t, key, e.fanout);
    assert t'.lastEpochs == Put(t.lastEpochs, key, EffectOn(t, op, key).last);
    OneKeyNext(t, op, key, EffectOn(t, op, key), t');
  }

  lemma RemoveNext(t: Table, key: Key, id: nat)
    requires key in t.fanouts
    ensures var e := Removed(t.fanouts[key], id);
            Next(t, RemoveViewer(key, id), AfterWith(t, key, e.fanout), Tell(key, e.action))
  {
    var f := t.fanouts[key];
    WithNext(t, RemoveViewer(key, id), key, Removed(f, id),
             if id in f.viewers then map[id := f.viewers[id].tx] else map[]);
  }

  lemma SetNext(t: Table, key: Key, id: nat, params: Params)
    requires key in t.fanouts
    ensures var e := WithParams(t.fanouts[key], id, params);
            Next(t, SetParams(key, id, params), AfterWith(t, key, e.fanout), Tell(key, e.action))
  {
    WithNext(t, SetParams(key, id, params), key, WithParams(t.fanouts[key], id, params), map[]);
  }

  lemma AckNext(t: Table, key: Key, id: nat)
    requires key in t.fanouts
    ensures var e := Acked(t.fanouts[key], id);
            Next(t, ViewerAck(key, id), AfterWith(t, key, e.fanout), Tell(key, e.action))
  {
    WithNext(t, ViewerAck(key, id), key, Acked(t.fanouts[key], id), map[]);
  }

  lemma NothingThere(t: Table, op: Op, key: Key)
    requires op.RemoveViewer? || op.SetParams? || op.ViewerAck?
    requires op.key == key && key !in t.fanouts
    ensures Next(t, op, t, map[])
  {
    assert t.fanouts == Put(t.fanouts, key, None);
    assert t.lastEpochs == Put(t.lastEpochs, key, At(t.lastEpochs, key));
    OneKeyNext(t, op, key, EffectOn(t, op, key), t);
  }

  lemma FrameNext(t: Table, key: Key, frame: Frame, t': Table)
    requires t' == if key in t.fanouts then t.(fanouts := t.fanouts[key := Framed(t.fanouts[key], frame).fanout]) else t
    ensures Next(t, OnFrame(key, frame), t',
                 Tell(key, if key in t.fanouts then Framed(t.fanouts[key], frame).action
                           else Some(Stop(if key in t.lastEpochs then t.lastEpochs[key] else t.clock))))
  {
    assert t.fanouts == Put(t.fanouts, key, At(t.fanouts, key));
    assert t.lastEpochs == Put(t.lastEpochs, key, At(t.lastEpochs, key));
    OneKeyNext(t, OnFrame(key, frame), key, EffectOn(t, OnFrame(key, frame), key), t');
  }

  lemma DestroyNext(t: Table, key: Key, t': Table)
    requires t' == Table(t.fanouts - {key}, t.lastEpochs - {key},
                         if key in t.fanouts then Larger(t.clock, t.fanouts[key].epoch) else t.clock, t.top)
    ensures Next(t, DestroyBrowser(key), t', map[])
  {
    OneKeyNext(t, DestroyBrowser(key), key, EffectOn(t, DestroyBrowser(key), key), t');
  }

  // ---------- A whole machine ----------

  /** The largest of `clock` and the epochs of the fan-outs of `keys`, retired in any order. */
  ghost function ClockAfter(clock: nat, fanouts: map<Key, FanoutState>, keys: set<Key>): nat
    requires keys <= fanouts.Keys
  {
    if keys == {} then clock
    else
      var k :| k in keys;
      Larger(ClockAfter(clock, fanouts, keys - {k}), fanouts[k].epoch)
  }

  lemma {:induction false} ClockAfterIsMax(clock: nat, fanouts: map<Key, FanoutState>, keys: set<Key>)
    requires keys <= fanouts.Keys
    ensures clock <= ClockAfter(clock, fanouts, keys)
    ensures forall k <- keys :: fanouts[k].epoch <= ClockAfter(clock, fanouts, keys)
    ensures ClockAfter(clock, fanouts, keys) == clock ||
            exists k <- keys :: fanouts[k].epoch == ClockAfter(clock, fanouts, keys)
  {
    var c := ClockAfter(clock, fanouts, keys);
    if keys == {} {
      assert c == clock;
    } else {
      var k :| k in keys && c == Larger(ClockAfter(clock, fanouts, keys - {k}), fanouts[k].epoch);
      ClockAfterIsMax(clock, fanouts, keys - {k});
      assert c == Larger(ClockAfter(clock, fanouts, keys - {k}), fanouts[k].epoch);
    }
  }

  lemma ClockAfterExtends(clock: nat, fanouts: map<Key, FanoutState>, keys: set<Key>, k: Key)
    requires keys <= fanouts.Keys && k in fanouts
    ensures ClockAfter(clock, fanouts, keys + {k}) == Larger(ClockAfter(clock, fanouts, keys), fanouts[k].epoch)
  {
    ClockAfterIsMax(clock, fanouts, keys);
    ClockAfterIsMax(clock, fanouts, keys + {k});
  }

  /** `m` is `was` without the entries of `machine`. */
  ghost predicate IsWithout<T>(m: map<Key, T>, was: map<Key, T>, machine: string) {
    && (forall k <- m :: k.machine != machine && k in was && m[k] == was[k])
    && (forall k <- was :: k.machine != machine ==> k in m)
  }

  lemma DestroyMachineNext(t: Table, machine: string, t': Table)
    requires IsWithout(t'.fanouts, t.fanouts, machine) && IsWithout(t'.lastEpochs, t.lastEpochs, machine)
    requires t'.clock == ClockAfter(t.clock, t.fanouts, set k | k in t.fanouts && k.machine == machine)
    requires t'.top == t.top
    ensures Next(t, DestroyMachine(machine), t', map[])
  {
    var op := DestroyMachine(machine);
    ClockAfterIsMax(t.clock, t.fanouts, set k | k in t.fanouts && k.machine == machine);
    forall k: Key
      ensures KeyNext(t, op, t', map[], k)
    {
      if k.machine == machine {
        assert Local(t, op, k) == Destroy;
      } else {
        IdleKeyNext(t, op, t', map[], k);
      }
    }
    if t'.clock != t.clock {
      var k :| k in t.fanouts && k.machine == machine && t.fanouts[k].epoch == t'.clock;
      assert Retires(t, op, k, t'.clock);
    }
  }

  /** The keys whose browsers the node does not report. */
  function Absent(keys: set<Key>, present: set<string>): set<Key> {
    set k | k in keys && k.browser !in present
  }

  /** Of `keys`, the fan-outs whose browsers the node no longer has are gone, the others restarted. */
  ghost predicate Resynced(t: Table, present: set<string>, keys: set<Key>, fanouts: map<Key, FanoutState>,
      told: map<Key, NodeAction>)
  {
    && fanouts.Keys == (set k | k in t.fanouts && (k in keys ==> k.browser in present))
    && (forall k <- fanouts :: fanouts[k] == if k in keys then Restarted(t.fanouts[k]).fanout else t.fanouts[k])
    && (forall k: Key :: At(told, k) == if k in keys && k in fanouts then Restarted(t.fanouts[k]).action else None)
  }

  /** The table after the loop of `resync_machine` has been through `keys`. */
  ghost predicate ResyncedTo(t: Table, present: set<string>, keys: set<Key>, now: Table, told: map<Key, NodeAction>) {
    && keys <= t.fanouts.Keys
    && Resynced(t, present, keys, now.fanouts, told)
    && now.lastEpochs == t.lastEpochs && now.top == t.top
    && now.clock == ClockAfter(t.clock, t.fanouts, Absent(keys, present))
  }

  /** One browser's restart or end. */
  ghost function ResyncEffect(present: set<string>, now: Table, key: Key): (Table, Option<NodeAction>)
    requires key in now.fanouts
  {
    var e := Restarted(now.fanouts[key]);
    if key.browser in present then (now.(fanouts := now.fanouts[key := e.fanout]), e.action)
    else (now.(fanouts := now.fanouts - {key}, clock := Larger(now.clock, now.fanouts[key].epoch)), None)
  }

  lemma ToldMore(told: map<Key, NodeAction>, key: Key, action: Option<NodeAction>)
    requires key !in told
    ensures forall k: Key :: At(told + Tell(key, action), k) == if k == key then action else At(told, k)
  {
  }

  lemma OneRestarted(t: Table, present: set<string>, keys: set<Key>, now: Table, told: map<Key, NodeAction>, key: Key)
    requires ResyncedTo(t, present, keys, now, told) && key in t.fanouts && key !in keys && key.browser in present
    ensures key in now.fanouts
    ensures var e := Restarted(now.fanouts[key]);
            ResyncedTo(t, present, keys + {key}, now.(fanouts := now.fanouts[key := e.fanout]),
                       told + Tell(key, e.action))
  {
    assert At(told, key).None?;
    assert now.fanouts[key] == t.fanouts[key];
    assert Absent(keys + {key}, present) == Absent(keys, present);
    var e := Restarted(now.fanouts[key]);
    ToldMore(told, key, e.action);
    assert Resynced(t, present, keys + {key}, now.fanouts[key := e.fanout], told + Tell(key, e.action));
  }

  lemma OneEnded(t: Table, present: set<string>, keys: set<Key>, now: Table, told: map<Key, NodeAction>, key: Key)
    requires ResyncedTo(t, present, keys, now, told) && key in t.fanouts && key !in keys && key.browser !in present
    ensures key in now.fanouts
    ensures ResyncedTo(t, present, keys + {key},
                       now.(fanouts := now.fanouts - {key}, clock := Larger(now.clock, now.fanouts[key].epoch)), told)
  {
    assert now.fanouts[key] == t.fanouts[key];
    ClockAfterExtends(t.clock, t.fanouts, Absent(keys, present), key);
    assert Absent(keys + {key}, present) == Absent(keys, present) + {key};
  }

  lemma ResyncedMore(t: Table, present: set<string>, keys: set<Key>, now: Table, told: map<Key, NodeAction>, key: Key)
    requires ResyncedTo(t, present, keys, now, told) && key in t.fanouts && key !in keys
    ensures key in now.fanouts && key !in told
    ensures var (after, action) := ResyncEffect(present, now, key);
            ResyncedTo(t, present, keys + {key}, after, told + Tell(key, action))
  {
    assert At(told, key).None?;
    if key.browser in present {
      OneRestarted(t, present, keys, now, told, key);
    } else {
      OneEnded(t, present, keys, now, told, key);
      assert told + Tell(key, None) == told;
    }
  }

  lemma ResyncNext(t: Table, machine: string, present: set<string>, t': Table, told: map<Key, NodeAction>)
    requires ResyncedTo(t, present, (set k | k in t.fanouts && k.machine == machine), t', told)
    requires forall k <- t.fanouts :: k !in t.lastEpochs
    ensures Next(t, ResyncMachine(machine, present), t', told)
  {
    var op := ResyncMachine(machine, present);
    ClockAfterIsMax(t.clock, t.fanouts, Absent((set k | k in t.fanouts && k.machine == machine), present));
    forall k: Key
      ensures KeyNext(t, op, t', told, k)
    {
      if k.machine == machine && k in t.fanouts {
        assert Local(t, op, k) == if k.browser in present then Restart else Destroy;
      } else {
        assert At(told, k).None?;
        IdleKeyNext(t, op, t', told, k);
      }
    }
    if t'.clock != t.clock {
      var k :| k in t.fanouts && k.machine == machine && k.browser !in present && t.fanouts[k].epoch == t'.clock;
      assert Retires(t, op, k, t'.clock);
    }
  }
}
