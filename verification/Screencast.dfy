/**
  Data model and per-browser specification of the live screencast fan-out
  (crates/hub/src/agent_browser_stream.rs).

  A fan-out sits between one node, which sends a frame and waits for an ack, and the viewers
  of one browser. `KeyAfter` says what one browser's entry of the `Streams` table does in one
  operation; browsers share nothing but the epoch clock and the viewer counter.
*/
module Screencast {
  import opened Wrappers
  import opened Numbers

  datatype Params = Params(maxWidth: nat, maxHeight: nat, quality: nat)

  function Larger(a: nat, b: nat): nat { if a < b then b else a }

  function Clamped(maxWidth: nat, maxHeight: nat, quality: nat): (p: Params)
    ensures InRange(p)
    ensures InRange(Params(maxWidth, maxHeight, quality)) ==> p == Params(maxWidth, maxHeight, quality)
  {
    Params(Clamp(maxWidth, 200, 1920), Clamp(maxHeight, 200, 1920), Clamp(quality, 20, 90))
  }

  function Max(p: Params, q: Params): Params {
    Params(Larger(p.maxWidth, q.maxWidth), Larger(p.maxHeight, q.maxHeight), Larger(p.quality, q.quality))
  }

  /** `p` asks for no more than `q` in any respect. */
  predicate AtMost(p: Params, q: Params) {
    p.maxWidth <= q.maxWidth && p.maxHeight <= q.maxHeight && p.quality <= q.quality
  }

  predicate InRange(p: Params) {
    200 <= p.maxWidth <= 1920 && 200 <= p.maxHeight <= 1920 && 20 <= p.quality <= 90
  }

  datatype Frame = Frame(meta: seq<bv8>, jpeg: seq<bv8>)

  /** A frame with the number the fan-out gave it. */
  datatype Stamped = Stamped(num: nat, frame: Frame)

  datatype ViewerMsg = FrameMsg(stamped: Stamped) | Destroyed

  /** A viewer's unbounded channel: whether the receiver still exists, and all it was sent. */
  datatype Channel = Channel(open: bool, log: seq<ViewerMsg>)

  function Send(tx: Channel, msg: ViewerMsg): Channel {
    if tx.open then tx.(log := tx.log + [msg]) else tx
  }

  datatype NodeAction = Start(params: Params, epoch: nat) | Stop(epoch: nat) | Ack

  datatype Viewer = Viewer(tx: Channel, params: Params, waiting: bool, sentSeq: nat, slot: Option<Stamped>)

  datatype FanoutState = FanoutState(
    viewers: map<nat, Viewer>,
    started: Option<Params>,
    seqNo: nat,
    nodeAcked: nat,
    lastFrame: Option<Stamped>,
    epoch: nat)

  // ---------- What the viewers together want ----------

  /** `w` is the pointwise maximum of the parameters of the viewers in `ids`. */
  ghost predicate IsMaxOver(viewers: map<nat, Viewer>, ids: set<nat>, w: Option<Params>)
    requires ids <= viewers.Keys
  {
    match w
    case None => ids == {}
    case Some(p) =>
      && (forall i <- ids :: AtMost(viewers[i].params, p))
      && (exists i <- ids :: viewers[i].params.maxWidth == p.maxWidth)
      && (exists i <- ids :: viewers[i].params.maxHeight == p.maxHeight)
      && (exists i <- ids :: viewers[i].params.quality == p.quality)
  }

  ghost predicate IsWanted(viewers: map<nat, Viewer>, w: Option<Params>) {
    IsMaxOver(viewers, viewers.Keys, w)
  }

  lemma MaxOverExtends(viewers: map<nat, Viewer>, ids: set<nat>, w: Option<Params>, i: nat)
    requires ids <= viewers.Keys && i in viewers && IsMaxOver(viewers, ids, w)
    ensures IsMaxOver(viewers, ids + {i}, Some(if w.None? then viewers[i].params else Max(w.value, viewers[i].params)))
  {
    var p := viewers[i].params;
    if w.Some? {
      var a :| a in ids && viewers[a].params.maxWidth == w.value.maxWidth;
      var b :| b in ids && viewers[b].params.maxHeight == w.value.maxHeight;
      var c :| c in ids && viewers[c].params.quality == w.value.quality;
      assert {i, a, b, c} <= ids + {i};
    }
  }

  /** The parameters the node should run with: folded over the viewers in any order, as the map's
      iteration gives them. `WantedIsMax` and `WantedIsUnique` say what it comes to. */
  ghost function Wanted(viewers: map<nat, Viewer>): Option<Params> {
    WantedOver(viewers, viewers.Keys)
  }

  ghost function WantedOver(viewers: map<nat, Viewer>, ids: set<nat>): Option<Params>
    requires ids <= viewers.Keys
    decreases ids
  {
    if ids == {} then None
    else
      var i :| i in ids;
      var rest := WantedOver(viewers, ids - {i});
      Some(if rest.None? then viewers[i].params else Max(rest.value, viewers[i].params))
  }

  lemma {:induction false} WantedOverIsMax(viewers: map<nat, Viewer>, ids: set<nat>)
    requires ids <= viewers.Keys
    ensures IsMaxOver(viewers, ids, WantedOver(viewers, ids))
    decreases ids
  {
    if ids != {} {
      var i :| i in ids && WantedOver(viewers, ids) ==
        var rest := WantedOver(viewers, ids - {i});
        Some(if rest.None? then viewers[i].params else Max(rest.value, viewers[i].params));
      WantedOverIsMax(viewers, ids - {i});
      MaxOverExtends(viewers, ids - {i}, WantedOver(viewers, ids - {i}), i);
      assert ids - {i} + {i} == ids;
    }
  }

  lemma WantedIsMax(viewers: map<nat, Viewer>)
    ensures IsWanted(viewers, Wanted(viewers))
  {
    WantedOverIsMax(viewers, viewers.Keys);
  }

  /** Only the parameters of the viewers counted matter. */
  lemma MaxOverNarrower(a: map<nat, Viewer>, b: map<nat, Viewer>, ids: set<nat>, w: Option<Params>)
    requires ids <= a.Keys && ids <= b.Keys && IsMaxOver(a, ids, w)
    requires forall i <- ids :: a[i].params == b[i].params
    ensures IsMaxOver(b, ids, w)
  {
    if w.Some? {
      var x :| x in ids && a[x].params.maxWidth == w.value.maxWidth;
      var y :| y in ids && a[y].params.maxHeight == w.value.maxHeight;
      var z :| z in ids && a[z].params.quality == w.value.quality;
      assert b[x].params == a[x].params && b[y].params == a[y].params && b[z].params == a[z].params;
    }
  }

  lemma WantedIsUnique(viewers: map<nat, Viewer>, w: Option<Params>)
    requires IsWanted(viewers, w)
    ensures w == Wanted(viewers)
  {
    WantedIsMax(viewers);
    var u := Wanted(viewers);
    if w.Some? && u.Some? {
      assert AtMost(w.value, u.value) && AtMost(u.value, w.value);
    }
  }

  /** Viewers are only let in with clamped parameters, so the node only runs with allowed ones. */
  lemma WantedStaysInRange(viewers: map<nat, Viewer>)
    requires forall i <- viewers :: InRange(viewers[i].params)
    ensures Wanted(viewers).Some? ==> InRange(Wanted(viewers).value)
  {
    WantedIsMax(viewers);
    if Wanted(viewers).Some? {
      var i :| i in viewers && viewers[i].params.maxWidth == Wanted(viewers).value.maxWidth;
    }
  }

  // ---------- One fan-out ----------

  /** A fan-out after a call, and the action (at most one) its caller must send to the node. */
  datatype Effect = Effect(fanout: FanoutState, action: Option<NodeAction>)

  function NewFanout(epoch: nat): FanoutState {
    FanoutState(map[], None, 0, 0, None, epoch)
  }

  ghost function Reconciled(f: FanoutState): Effect {
    var wanted := Wanted(f.viewers);
    if wanted == f.started then Effect(f, None)
    else
      var e := f.epoch + 1;
      Effect(f.(started := wanted, epoch := e), Some(if wanted.Some? then Start(wanted.value, e) else Stop(e)))
  }

  function Deliver(v: Viewer, stamped: Stamped): Viewer {
    if v.tx.open then v.(tx := Send(v.tx, FrameMsg(stamped)), waiting := true, sentSeq := stamped.num) else v
  }

  function Joining(f: FanoutState, params: Params, tx: Channel): Viewer {
    var v := Viewer(tx, params, false, 0, None);
    if f.lastFrame.Some? then Deliver(v, f.lastFrame.value) else v
  }

  ghost function Added(f: FanoutState, id: nat, params: Params, tx: Channel): Effect {
    Reconciled(f.(viewers := f.viewers[id := Joining(f, params, tx)]))
  }

  ghost function Removed(f: FanoutState, id: nat): Effect {
    if id !in f.viewers then Effect(f, None)
    else
      var rest := f.viewers - {id};
      Reconciled(f.(viewers := rest, lastFrame := if rest == map[] then None else f.lastFrame))
  }

  ghost function WithParams(f: FanoutState, id: nat, params: Params): Effect {
    if id !in f.viewers then Effect(f, None)
    else Reconciled(f.(viewers := f.viewers[id := f.viewers[id].(params := params)]))
  }

  function Offered(v: Viewer, stamped: Stamped): Viewer {
    if v.waiting then v.(slot := Some(stamped)) else Deliver(v, stamped)
  }

  function Framed(f: FanoutState, frame: Frame): Effect {
    var stamped := Stamped(f.seqNo + 1, frame);
    if f.viewers == map[] then
      Effect(f.(seqNo := stamped.num, nodeAcked := stamped.num), Some(Ack))
    else
      Effect(f.(seqNo := stamped.num, lastFrame := Some(stamped),
                viewers := map i | i in f.viewers :: Offered(f.viewers[i], stamped)), None)
  }

  function Drawn(v: Viewer): Viewer {
    var idle := v.(waiting := false, slot := None);
    if v.slot.Some? then Deliver(idle, v.slot.value) else idle
  }

  function Acked(f: FanoutState, id: nat): Effect {
    if id !in f.viewers || !f.viewers[id].waiting then Effect(f, None)
    else
      var sent := f.viewers[id].sentSeq;
      var g := f.(viewers := f.viewers[id := Drawn(f.viewers[id])]);
      if sent > f.nodeAcked then Effect(g.(nodeAcked := sent), Some(Ack)) else Effect(g, None)
  }

  function AllTold(f: FanoutState): FanoutState {
    f.(viewers := map i | i in f.viewers :: f.viewers[i].(tx := Send(f.viewers[i].tx, Destroyed)))
  }

  ghost function Restarted(f: FanoutState): Effect {
    Reconciled(f.(started := None, nodeAcked := f.seqNo))
  }

  /** The environment drops the receiver of viewer `id`. */
  function HungUp(f: FanoutState, id: nat): FanoutState {
    if id !in f.viewers then f
    else f.(viewers := f.viewers[id := f.viewers[id].(tx := f.viewers[id].tx.(open := false))])
  }

  // ---------- One browser's entry in the table ----------

  datatype Key = Key(machine: string, browser: string)

  /** What the table holds for one key, and the shared epoch clock. */
  datatype KeyView = KeyView(live: Option<FanoutState>, last: Option<nat>, clock: nat)

  /** An operation as one key experiences it. */
  datatype LocalOp =
    | Idle
    | Join(id: nat, params: Params)
    | Leave(id: nat)
    | Adjust(id: nat, params: Params)
    | Draw(id: nat)
    | FromNode(frame: Frame)
    | Destroy
    | Restart
    | Hangup(id: nat)

  datatype KeyEffect = KeyEffect(
    live: Option<FanoutState>, last: Option<nat>, told: Option<NodeAction>, gone: map<nat, Channel>,
    retired: Option<nat>)

  /** A fan-out without viewers is dropped and its epoch remembered. */
  function Kept(v: KeyView, e: Effect, gone: map<nat, Channel>): KeyEffect {
    if e.fanout.viewers == map[] then KeyEffect(None, Some(e.fanout.epoch), e.action, gone, Some(e.fanout.epoch))
    else KeyEffect(Some(e.fanout), v.last, e.action, gone, None)
  }

  function ChannelsOf(f: FanoutState): map<nat, Channel> {
    map i | i in f.viewers :: f.viewers[i].tx
  }

  ghost function KeyAfter(v: KeyView, op: LocalOp): KeyEffect {
    var same := KeyEffect(v.live, v.last, None, map[], None);
    match op
    case Idle => same
    case Join(id, params) =>
      var f := if v.live.Some? then v.live.value else NewFanout(Larger(v.last.GetOr(0), v.clock));
      var e := Added(f, id, params, Channel(true, []));
      KeyEffect(Some(e.fanout), None, e.action, map[], None)
    case Leave(id) =>
      if v.live.None? then same
      else
        var f := v.live.value;
        Kept(v, Removed(f, id), if id in f.viewers then map[id := f.viewers[id].tx] else map[])
    case Adjust(id, params) => if v.live.None? then same else Kept(v, WithParams(v.live.value, id, params), map[])
    case Draw(id) => if v.live.None? then same else Kept(v, Acked(v.live.value, id), map[])
    case FromNode(frame) =>
      if v.live.None? then same.(told := Some(Stop(v.last.GetOr(v.clock))))
      else
        var e := Framed(v.live.value, frame);
        same.(live := Some(e.fanout), told := e.action)
    case Destroy =>
      if v.live.None? then same.(last := None)
      else KeyEffect(None, None, None, ChannelsOf(AllTold(v.live.value)), Some(v.live.value.epoch))
    case Restart =>
      if v.live.None? then same
      else
        var e := Restarted(v.live.value);
        same.(live := Some(e.fanout), told := e.action)
    case Hangup(id) =>
      if v.live.None? then same else same.(live := Some(HungUp(v.live.value, id)))
  }
}
