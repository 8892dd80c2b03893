/**
  What happens to one browser's screencast over any run of the hub: a ledger of everything the
  node was told and everything each viewer was sent, and the invariant every operation keeps.
*/
module ScreencastLedger {
  import opened Wrappers
  import opened Screencast

  /** Why a message went to the node. */
  datatype Cause = FromReconcile | FromResync | FromStraggler | FromAck

  /** For an ack, `frame` numbers the acked frame among all the frames the node ever sent for this
      browser; for the others it is how many frames had come by then. */
  datatype Entry = Entry(cause: Cause, action: NodeAction, frame: int)

  /** The channel of a viewer that left or was told `Destroyed`; its fan-out's frame 1 was the
      node's frame `base` + 1. */
  datatype Parted = Parted(tx: Channel, base: int)

  datatype Ledger = Ledger(
    told: seq<Entry>,
    frames: seq<Frame>,
    drawn: map<nat, nat>,      // acks each viewer got accepted
    parted: map<nat, Parted>)

  const EMPTY_LEDGER := Ledger([], [], map[], map[])

  function Count(m: map<nat, nat>, id: nat): nat { if id in m then m[id] else 0 }

  function CauseOf(op: LocalOp, action: NodeAction): Cause {
    if action.Ack? then FromAck
    else if op.Restart? then FromResync
    else if op.FromNode? then FromStraggler
    else FromReconcile
  }

  function Base(frames: seq<Frame>, f: FanoutState): int { |frames| - f.seqNo }

  function FramesAfter(frames: seq<Frame>, op: LocalOp): seq<Frame> {
    if op.FromNode? then frames + [op.frame] else frames
  }

  function DrawnAfter(drawn: map<nat, nat>, v: KeyView, op: LocalOp): map<nat, nat> {
    if op.Draw? && v.live.Some? && op.id in v.live.value.viewers && v.live.value.viewers[op.id].waiting
    then drawn[op.id := Count(drawn, op.id) + 1] else drawn
  }

  function PartedAfter(parted: map<nat, Parted>, frames: seq<Frame>, v: KeyView, e: KeyEffect): map<nat, Parted> {
    if v.live.None? then parted
    else parted + map i | i in e.gone :: Parted(e.gone[i], Base(frames, v.live.value))
  }

  function ToldAfter(told: seq<Entry>, frames: seq<Frame>, op: LocalOp, e: KeyEffect): seq<Entry> {
    if e.told.None? then told
    else
      var frame :=
        if e.told.value.Ack? && e.live.Some? then |frames| - e.live.value.seqNo + e.live.value.nodeAcked
        else |frames|;
      told + [Entry(CauseOf(op, e.told.value), e.told.value, frame)]
  }

  /** The ledger after `op` took the key from `v` with effect `e`. */
  function Written(l: Ledger, v: KeyView, op: LocalOp, e: KeyEffect): Ledger {
    var frames := FramesAfter(l.frames, op);
    Ledger(ToldAfter(l.told, frames, op, e), frames, DrawnAfter(l.drawn, v, op), PartedAfter(l.parted, l.frames, v, e))
  }

  // ---------- The invariant of one viewer ----------

  /** Frames only, with strictly increasing numbers. */
  ghost predicate Increasing(log: seq<ViewerMsg>) {
    if log == [] then true
    else
      var rest, last := log[..|log| - 1], log[|log| - 1];
      && last.FrameMsg?
      && Increasing(rest)
      && (rest != [] ==> rest[|rest| - 1].stamped.num < last.stamped.num)
  }

  /** Every frame in the log is a frame the node sent: number n is the node's number `base` + n. */
  ghost predicate Genuine(log: seq<ViewerMsg>, base: int, frames: seq<Frame>) {
    if log == [] then true
    else
      var last := log[|log| - 1];
      && Genuine(log[..|log| - 1], base, frames)
      && (last.FrameMsg? ==>
            && 0 < last.stamped.num && 0 < base + last.stamped.num <= |frames|
            && last.stamped.frame == frames[base + last.stamped.num - 1])
  }

  ghost predicate ViewerOk(v: Viewer, f: FanoutState, drawn: nat) {
    && Increasing(v.tx.log)
    && |v.tx.log| == drawn + (if v.waiting then 1 else 0)
    && (v.tx.log == [] ==> v.sentSeq == 0)
    && (v.tx.log != [] ==> v.tx.log[|v.tx.log| - 1].stamped.num == v.sentSeq)
    && v.sentSeq <= f.seqNo
    && (v.slot.Some? ==> v.waiting && v.sentSeq < f.seqNo && v.slot == f.lastFrame)
    && (v.waiting && v.slot.None? ==> v.sentSeq == f.seqNo)
    && (v.tx.open && !v.waiting ==> f.nodeAcked == f.seqNo)
  }

  // ---------- The invariant of one fan-out ----------

  /** The counters and the newest frame agree with what came from the node. */
  ghost predicate Synced(f: FanoutState, frames: seq<Frame>) {
    && f.nodeAcked <= f.seqNo <= |frames|
    && (f.seqNo == 0 <==> f.lastFrame.None?)
    && (f.lastFrame.Some? ==> f.lastFrame.value == Stamped(f.seqNo, frames[|frames| - 1]))
  }

  /** Somebody watches, and the node runs what the viewers want. */
  ghost predicate Settled(f: FanoutState) {
    f.viewers != map[] && f.started == Wanted(f.viewers)
  }

  ghost predicate ViewersOk(f: FanoutState, frames: seq<Frame>, drawn: map<nat, nat>) {
    forall i <- f.viewers ::
      ViewerOk(f.viewers[i], f, Count(drawn, i)) && Genuine(f.viewers[i].tx.log, Base(frames, f), frames)
  }

  ghost predicate FanoutOk(f: FanoutState, frames: seq<Frame>, drawn: map<nat, nat>) {
    Synced(f, frames) && Settled(f) && ViewersOk(f, frames, drawn)
  }

  // ---------- The invariant of what the node was told ----------

  predicate Epochal(a: NodeAction) { !a.Ack? }

  /** `b` was told after `a`. */
  ghost predicate InOrder(a: Entry, b: Entry) {
    && (Epochal(a.action) && Epochal(b.action) ==>
          a.action.epoch <= b.action.epoch && (b.cause != FromStraggler ==> a.action.epoch < b.action.epoch))
    && (b.cause == FromAck && a.cause in {FromAck, FromResync} ==> a.frame < b.frame)
  }

  ghost predicate Shaped(e: Entry, seed: nat, frames: nat) {
    && (e.cause == FromAck <==> e.action.Ack?)
    && (e.cause == FromStraggler ==> e.action.Stop?)
    && (e.cause == FromResync ==> e.action.Start?)
    && (Epochal(e.action) ==> seed <= e.action.epoch)
    && (e.cause in {FromAck, FromResync} ==> e.frame <= frames)
    && (e.cause == FromAck ==> 0 < e.frame)
  }

  ghost predicate Ordered(told: seq<Entry>) {
    forall i, j :: 0 <= i < j < |told| ==> InOrder(told[i], told[j])
  }

  ghost predicate AllShaped(told: seq<Entry>, seed: nat, frames: nat) {
    forall i :: 0 <= i < |told| ==> Shaped(told[i], seed, frames)
  }

  /** Every epoch told so far is at most `bound`. */
  ghost predicate EpochsUpTo(told: seq<Entry>, bound: nat) {
    forall i :: 0 <= i < |told| && Epochal(told[i].action) ==> told[i].action.epoch <= bound
  }

  ghost predicate AckedUpTo(told: seq<Entry>, bound: int) {
    forall i :: 0 <= i < |told| && told[i].cause in {FromAck, FromResync} ==> told[i].frame <= bound
  }

  /** The newest word on running or not is `Start(p, e)`: every other epoch is smaller. */
  ghost predicate NewestIsStart(told: seq<Entry>, p: Params, e: nat) {
    exists n :: 0 <= n < |told| && told[n].action == Start(p, e)
                && forall i :: 0 <= i < |told| && i != n && Epochal(told[i].action) ==> told[i].action.epoch < e
  }

  /** The newest word is `Stop`: it was said with epoch `e`, and no Start has an epoch as large. */
  ghost predicate NewestIsStop(told: seq<Entry>, e: nat) {
    && EpochsUpTo(told, e)
    && (exists n :: 0 <= n < |told| && told[n].action == Stop(e))
    && (forall i :: 0 <= i < |told| && told[i].action.Start? ==> told[i].action.epoch < e)
  }

  ghost predicate PartedOk(p: Parted, frames: seq<Frame>) {
    var n := |p.tx.log|;
    && Genuine(p.tx.log, p.base, frames)
    && (Increasing(p.tx.log) || (n > 0 && p.tx.log[n - 1] == Destroyed && Increasing(p.tx.log[..n - 1])))
  }

  // ---------- The invariant of one key ----------

  ghost predicate ToldOk(v: KeyView, told: seq<Entry>, frames: nat, seed: nat) {
    && Ordered(told) && AllShaped(told, seed, frames) && seed <= v.clock
    && match v.live
       case Some(f) =>
         && seed <= f.epoch
         && EpochsUpTo(told, f.epoch)
         && AckedUpTo(told, frames - f.seqNo + f.nodeAcked)
         && f.started.Some? && NewestIsStart(told, f.started.value, f.epoch)
       case None =>
         && EpochsUpTo(told, v.last.GetOr(v.clock))
         && (v.last.Some? ==> seed <= v.last.value <= v.clock && NewestIsStop(told, v.last.value))
  }

  /** Numbers given out: `top` is the newest. Nobody is both watching and parted. */
  ghost predicate NumbersOk(v: KeyView, top: nat, drawn: map<nat, nat>, parted: map<nat, Parted>) {
    && (forall i <- drawn :: i <= top)
    && (forall i <- parted :: i <= top)
    && (v.live.Some? ==> v.last.None? && forall i <- v.live.value.viewers :: i <= top && i !in parted)
  }

  ghost predicate AllPartedOk(parted: map<nat, Parted>, frames: seq<Frame>) {
    forall i <- parted :: PartedOk(parted[i], frames)
  }

  /** `top` is the last viewer number given out, `seed` where the epoch clock started. */
  ghost predicate KeyOk(v: KeyView, top: nat, seed: nat, l: Ledger) {
    && ToldOk(v, l.told, |l.frames|, seed)
    && NumbersOk(v, top, l.drawn, l.parted)
    && AllPartedOk(l.parted, l.frames)
    && (v.live.Some? ==> FanoutOk(v.live.value, l.frames, l.drawn))
  }
}
