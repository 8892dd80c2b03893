/** Every operation on a key keeps `KeyOk`. */
module ScreencastInvariant {
  import opened Wrappers
  import opened Screencast
  import opened ScreencastLedger

  // ---------- Viewers ----------

  lemma SendKeepsOk(log: seq<ViewerMsg>, s: Stamped, base: int, frames: seq<Frame>)
    requires Increasing(log) && Genuine(log, base, frames)
    requires log != [] ==> log[|log| - 1].stamped.num < s.num
    requires 0 < s.num && 0 < base + s.num <= |frames| && s.frame == frames[base + s.num - 1]
    ensures Increasing(log + [FrameMsg(s)]) && Genuine(log + [FrameMsg(s)], base, frames)
  {
    assert (log + [FrameMsg(s)])[..|log|] == log;
  }

  lemma {:induction false} GenuineGrows(log: seq<ViewerMsg>, base: int, frames: seq<Frame>, frame: Frame)
    requires Genuine(log, base, frames)
    ensures Genuine(log, base, frames + [frame])
  {
    if log != [] {
      GenuineGrows(log[..|log| - 1], base, frames, frame);
    }
  }

  /** A viewer that joins is shown the newest frame at once, if there is one. */
  lemma JoiningOk(f: FanoutState, params: Params, frames: seq<Frame>)
    requires Synced(f, frames)
    ensures var v := Joining(f, params, Channel(true, []));
            ViewerOk(v, f, 0) && Genuine(v.tx.log, Base(frames, f), frames)
  {
  }

  lemma OfferedOk(v: Viewer, f: FanoutState, g: FanoutState, frames: seq<Frame>, drawn: nat, frame: Frame)
    requires ViewerOk(v, f, drawn) && Genuine(v.tx.log, Base(frames, f), frames) && Synced(f, frames)
    requires g.seqNo == f.seqNo + 1 && g.lastFrame == Some(Stamped(f.seqNo + 1, frame)) && g.nodeAcked == f.nodeAcked
    ensures var w := Offered(v, Stamped(f.seqNo + 1, frame));
            ViewerOk(w, g, drawn) && Genuine(w.tx.log, Base(frames, f), frames + [frame])
  {
    GenuineGrows(v.tx.log, Base(frames, f), frames, frame);
    if !v.waiting && v.tx.open {
      SendKeepsOk(v.tx.log, Stamped(f.seqNo + 1, frame), Base(frames, f), frames + [frame]);
    }
  }

  lemma DrawnOk(v: Viewer, f: FanoutState, g: FanoutState, frames: seq<Frame>, drawn: nat)
    requires ViewerOk(v, f, drawn) && Genuine(v.tx.log, Base(frames, f), frames) && Synced(f, frames)
    requires v.waiting
    requires g.lastFrame == f.lastFrame && g.seqNo == f.seqNo && g.nodeAcked == Larger(f.nodeAcked, v.sentSeq)
    ensures var w := Drawn(v);
            ViewerOk(w, g, drawn + 1) && Genuine(w.tx.log, Base(frames, f), frames)
  {
    if v.slot.Some? && v.tx.open {
      SendKeepsOk(v.tx.log, v.slot.value, Base(frames, f), frames);
    }
  }

  /** A viewer does not notice what happens to others: acks only raise `nodeAcked`. */
  lemma BystanderOk(v: Viewer, f: FanoutState, g: FanoutState, drawn: nat)
    requires ViewerOk(v, f, drawn)
    requires g.seqNo == f.seqNo && g.lastFrame == f.lastFrame && f.nodeAcked <= g.nodeAcked <= g.seqNo
    ensures ViewerOk(v, g, drawn)
  {
  }

  // ---------- All the viewers of a fan-out ----------

  lemma BystandersOk(f: FanoutState, g: FanoutState, frames: seq<Frame>, drawn: map<nat, nat>)
    requires ViewersOk(f, frames, drawn)
    requires g.viewers.Keys <= f.viewers.Keys && forall i <- g.viewers :: g.viewers[i] == f.viewers[i]
    requires g.seqNo == f.seqNo && g.lastFrame == f.lastFrame && f.nodeAcked <= g.nodeAcked <= g.seqNo
    ensures ViewersOk(g, frames, drawn)
  {
    forall i | i in g.viewers
      ensures ViewerOk(g.viewers[i], g, Count(drawn, i))
    {
      BystanderOk(f.viewers[i], f, g, Count(drawn, i));
    }
  }

  /** One viewer is replaced. */
  lemma OneChangedOk(f: FanoutState, g: FanoutState, id: nat, w: Viewer, frames: seq<Frame>, drawn: map<nat, nat>,
      drawn': map<nat, nat>)
    requires ViewersOk(f, frames, drawn)
    requires g.viewers == f.viewers[id := w]
    requires g.seqNo == f.seqNo && g.lastFrame == f.lastFrame && f.nodeAcked <= g.nodeAcked <= g.seqNo
    requires forall i :: i != id ==> Count(drawn', i) == Count(drawn, i)
    requires ViewerOk(w, g, Count(drawn', id)) && Genuine(w.tx.log, Base(frames, f), frames)
    ensures ViewersOk(g, frames, drawn')
  {
    forall i | i in g.viewers
      ensures ViewerOk(g.viewers[i], g, Count(drawn', i)) && Genuine(g.viewers[i].tx.log, Base(frames, g), frames)
    {
      if i != id {
        BystanderOk(f.viewers[i], f, g, Count(drawn, i));
      }
    }
  }

  lemma ViewersFramedOk(f: FanoutState, frames: seq<Frame>, drawn: map<nat, nat>, frame: Frame)
    requires ViewersOk(f, frames, drawn) && Synced(f, frames) && f.viewers != map[]
    ensures ViewersOk(Framed(f, frame).fanout, frames + [frame], drawn)
  {
    var g := Framed(f, frame).fanout;
    forall i | i in g.viewers
      ensures ViewerOk(g.viewers[i], g, Count(drawn, i)) &&
              Genuine(g.viewers[i].tx.log, Base(frames + [frame], g), frames + [frame])
    {
      OfferedOk(f.viewers[i], f, g, frames, Count(drawn, i), frame);
    }
  }

  /** Only parameters matter to `Wanted`. */
  lemma SameWanted(a: map<nat, Viewer>, b: map<nat, Viewer>)
    requires a.Keys == b.Keys && forall i <- a :: a[i].params == b[i].params
    ensures Wanted(a) == Wanted(b)
  {
    WantedIsMax(a);
    MaxOverNarrower(a, b, a.Keys, Wanted(a));
    WantedIsUnique(b, Wanted(a));
  }

  /** The viewers' acks pass; the rest of the fan-out is as it was. */
  lemma AckedViewersOk(f: FanoutState, frames: seq<Frame>, drawn: map<nat, nat>, id: nat)
    requires ViewersOk(f, frames, drawn) && Synced(f, frames) && id in f.viewers && f.viewers[id].waiting
    ensures ViewersOk(Acked(f, id).fanout, frames, drawn[id := Count(drawn, id) + 1])
    ensures Synced(Acked(f, id).fanout, frames)
  {
    var g := Acked(f, id).fanout;
    var v := f.viewers[id];
    assert ViewerOk(v, f, Count(drawn, id));
    assert g.nodeAcked == Larger(f.nodeAcked, v.sentSeq) <= f.seqNo;
    DrawnOk(v, f, g, frames, Count(drawn, id));
    OneChangedOk(f, g, id, Drawn(v), frames, drawn, drawn[id := Count(drawn, id) + 1]);
  }

  lemma AckedSettled(f: FanoutState, id: nat)
    requires Settled(f) && id in f.viewers && f.viewers[id].waiting
    ensures Settled(Acked(f, id).fanout)
  {
    var g := Acked(f, id).fanout;
    SameWanted(f.viewers, g.viewers);
    assert id in g.viewers;
  }

  lemma AckedOk(f: FanoutState, frames: seq<Frame>, drawn: map<nat, nat>, id: nat)
    requires FanoutOk(f, frames, drawn) && id in f.viewers && f.viewers[id].waiting
    ensures FanoutOk(Acked(f, id).fanout, frames, drawn[id := Count(drawn, id) + 1])
  {
    AckedViewersOk(f, frames, drawn, id);
    AckedSettled(f, id);
  }

  lemma HungUpOk(f: FanoutState, frames: seq<Frame>, drawn: map<nat, nat>, id: nat)
    requires FanoutOk(f, frames, drawn) && id in f.viewers
    ensures FanoutOk(HungUp(f, id), frames, drawn)
  {
    var g := HungUp(f, id);
    var v := f.viewers[id];
    assert ViewerOk(v, f, Count(drawn, id));
    OneChangedOk(f, g, id, v.(tx := v.tx.(open := false)), frames, drawn, drawn);
    SameWanted(f.viewers, g.viewers);
    assert id in g.viewers;
  }

  lemma FramedOk(f: FanoutState, frames: seq<Frame>, drawn: map<nat, nat>, frame: Frame)
    requires FanoutOk(f, frames, drawn)
    ensures FanoutOk(Framed(f, frame).fanout, frames + [frame], drawn)
  {
    var g := Framed(f, frame).fanout;
    ViewersFramedOk(f, frames, drawn, frame);
    SameWanted(f.viewers, g.viewers);
    var i :| i in f.viewers;
    assert i in g.viewers;
  }

  /** Reconciling after the viewers changed: the node runs what they want now. */
  lemma ReconciledOk(f: FanoutState, frames: seq<Frame>, drawn: map<nat, nat>)
    requires Synced(f, frames) && ViewersOk(f, frames, drawn) && f.viewers != map[]
    ensures FanoutOk(Reconciled(f).fanout, frames, drawn)
  {
    BystandersOk(f, Reconciled(f).fanout, frames, drawn);
  }

  lemma AddedOk(f: FanoutState, frames: seq<Frame>, drawn: map<nat, nat>, id: nat, params: Params)
    requires Synced(f, frames) && ViewersOk(f, frames, drawn) && Count(drawn, id) == 0
    ensures FanoutOk(Added(f, id, params, Channel(true, [])).fanout, frames, drawn)
  {
    var w := Joining(f, params, Channel(true, []));
    var g := f.(viewers := f.viewers[id := w]);
    JoiningOk(f, params, frames);
    BystanderOk(w, f, g, 0);
    OneChangedOk(f, g, id, w, frames, drawn, drawn);
    assert id in g.viewers;
    ReconciledOk(g, frames, drawn);
  }

  lemma RemovedOk(f: FanoutState, frames: seq<Frame>, drawn: map<nat, nat>, id: nat)
    requires FanoutOk(f, frames, drawn) && id in f.viewers && f.viewers - {id} != map[]
    ensures FanoutOk(Removed(f, id).fanout, frames, drawn)
  {
    var g := f.(viewers := f.viewers - {id});
    BystandersOk(f, g, frames, drawn);
    ReconciledOk(g, frames, drawn);
  }

  lemma WithParamsOk(f: FanoutState, frames: seq<Frame>, drawn: map<nat, nat>, id: nat, params: Params)
    requires FanoutOk(f, frames, drawn) && id in f.viewers
    ensures FanoutOk(WithParams(f, id, params).fanout, frames, drawn)
  {
    var w := f.viewers[id].(params := params);
    var g := f.(viewers := f.viewers[id := w]);
    assert ViewerOk(f.viewers[id], f, Count(drawn, id));
    OneChangedOk(f, g, id, w, frames, drawn, drawn);
    assert id in g.viewers;
    ReconciledOk(g, frames, drawn);
  }

  lemma RestartedOk(f: FanoutState, frames: seq<Frame>, drawn: map<nat, nat>)
    requires FanoutOk(f, frames, drawn)
    ensures FanoutOk(Restarted(f).fanout, frames, drawn)
  {
    var g := f.(started := None, nodeAcked := f.seqNo);
    BystandersOk(f, g, frames, drawn);
    ReconciledOk(g, frames, drawn);
  }

  // ---------- What the node was told ----------

  lemma TellNewer(told: seq<Entry>, e: Entry, seed: nat, frames: nat, bound: nat)
    requires Ordered(told) && AllShaped(told, seed, frames) && EpochsUpTo(told, bound)
    requires Shaped(e, seed, frames)
    requires Epochal(e.action) && e.action.epoch == bound + 1
    ensures var after := told + [e];
            && Ordered(after) && AllShaped(after, seed, frames) && EpochsUpTo(after, bound + 1)
            && (e.action.Start? ==> NewestIsStart(after, e.action.params, bound + 1))
            && (e.action.Stop? ==> NewestIsStop(after, bound + 1))
  {
    var after := told + [e];
    assert after[|told|] == e;
    assert forall i :: 0 <= i < |told| ==> after[i] == told[i];
  }

  lemma AckKeepsNewest(told: seq<Entry>, e: Entry, p: Params, bound: nat)
    requires NewestIsStart(told, p, bound) && e.action.Ack?
    ensures NewestIsStart(told + [e], p, bound)
  {
    var after := told + [e];
    var n :| 0 <= n < |told| && told[n].action == Start(p, bound)
             && forall i :: 0 <= i < |told| && i != n && Epochal(told[i].action) ==> told[i].action.epoch < bound;
    assert after[n].action == Start(p, bound);
    assert forall i :: 0 <= i < |told| ==> after[i] == told[i];
  }

  lemma TellAck(told: seq<Entry>, e: Entry, seed: nat, frames: nat, bound: nat, acked: int, p: Params)
    requires Ordered(told) && AllShaped(told, seed, frames) && EpochsUpTo(told, bound)
    requires AckedUpTo(told, acked) && NewestIsStart(told, p, bound)
    requires e.cause == FromAck && e.action.Ack? && 0 <= acked < e.frame <= frames
    ensures var after := told + [e];
            && Ordered(after) && AllShaped(after, seed, frames) && EpochsUpTo(after, bound)
            && AckedUpTo(after, e.frame) && NewestIsStart(after, p, bound)
  {
    var after := told + [e];
    assert forall i :: 0 <= i < |told| ==> after[i] == told[i];
    AckKeepsNewest(told, e, p, bound);
  }

  lemma TellStraggler(told: seq<Entry>, e: Entry, seed: nat, frames: nat, last: Option<nat>, clock: nat)
    requires Ordered(told) && AllShaped(told, seed, frames) && seed <= last.GetOr(clock)
    requires EpochsUpTo(told, last.GetOr(clock))
    requires last.Some? ==> NewestIsStop(told, last.value)
    requires e.cause == FromStraggler && e.action == Stop(last.GetOr(clock))
    ensures var after := told + [e];
            && Ordered(after) && AllShaped(after, seed, frames) && EpochsUpTo(after, last.GetOr(clock))
            && (last.Some? ==> NewestIsStop(after, last.value))
  {
    var after := told + [e];
    assert forall i :: 0 <= i < |told| ==> after[i] == told[i];
    if last.Some? {
      var n :| 0 <= n < |told| && told[n].action == Stop(last.value);
      assert after[n].action == Stop(last.value);
    }
  }

  // ---------- One key ----------

  /** One operation on the key, as the rest of the table allows: the clock and the viewer counter
      only grow, a joining viewer gets a new number, and the clock covers every retired epoch. */
  ghost predicate KeyStep(v: KeyView, top: nat, op: LocalOp, v': KeyView, top': nat) {
    var e := KeyAfter(v, op);
    && v'.live == e.live && v'.last == e.last
    && v.clock <= v'.clock && (e.retired.Some? ==> e.retired.value <= v'.clock)
    && top <= top' && (op.Join? ==> top < op.id <= top')
  }

  /** What the told-part of the invariant needs to know of the fan-out. */
  ghost predicate Plain(v: KeyView, op: LocalOp, frames: seq<Frame>) {
    v.live.Some? ==>
      && v.last.None?
      && Synced(v.live.value, frames) && Settled(v.live.value)
      && (op.Draw? && op.id in v.live.value.viewers ==> v.live.value.viewers[op.id].sentSeq <= v.live.value.seqNo)
  }

  /** The told-part after a call that ended in `Reconciled(g)` with viewers left. */
  lemma ReconcileTold(g: FanoutState, v': KeyView, told: seq<Entry>, frames: nat, seed: nat, cause: Cause)
    requires Ordered(told) && AllShaped(told, seed, frames) && seed <= v'.clock && seed <= g.epoch
    requires EpochsUpTo(told, g.epoch) && AckedUpTo(told, frames - g.seqNo + g.nodeAcked)
    requires g.started.Some? ==> NewestIsStart(told, g.started.value, g.epoch)
    requires g.viewers != map[]
    requires cause == FromReconcile || (cause == FromResync && g.nodeAcked == g.seqNo)
    requires v'.live == Some(Reconciled(g).fanout)
    ensures var a := Reconciled(g).action;
            && (a.Some? ==> a.value.Start?)
            && ToldOk(v', if a.None? then told else told + [Entry(cause, a.value, frames)], frames, seed)
    // (`frames` is where the entry says the frames stood)
  {
    var a := Reconciled(g).action;
    if a.Some? {
      TellNewer(told, Entry(cause, a.value, frames), seed, frames, g.epoch);
    }
  }

  lemma ToldJoin(v: KeyView, op: LocalOp, v': KeyView, seed: nat, told: seq<Entry>, frames: seq<Frame>,
                     top: nat, top': nat)
    requires ToldOk(v, told, |frames|, seed) && Plain(v, op, frames) && KeyStep(v, top, op, v', top')
    requires op.Join?
    ensures ToldOk(v', ToldAfter(told, FramesAfter(frames, op), op, KeyAfter(v, op)), |FramesAfter(frames, op)|, seed)
  {
    var f := if v.live.Some? then v.live.value else NewFanout(Larger(v.last.GetOr(0), v.clock));
    var g := f.(viewers := f.viewers[op.id := Joining(f, op.params, Channel(true, []))]);
    assert op.id in g.viewers;
    ReconcileTold(g, v', told, |frames|, seed, FromReconcile);
  }

  lemma ToldLeave(v: KeyView, op: LocalOp, v': KeyView, seed: nat, told: seq<Entry>, frames: seq<Frame>,
                     top: nat, top': nat)
    requires ToldOk(v, told, |frames|, seed) && Plain(v, op, frames) && KeyStep(v, top, op, v', top')
    requires op.Leave?
    ensures ToldOk(v', ToldAfter(told, FramesAfter(frames, op), op, KeyAfter(v, op)), |FramesAfter(frames, op)|, seed)
  {
    if v.live.Some? && op.id in v.live.value.viewers {
      var f := v.live.value;
      var rest := f.viewers - {op.id};
      if rest == map[] {
        assert KeyAfter(v, op).told == Some(Stop(f.epoch + 1));
        TellNewer(told, Entry(FromReconcile, Stop(f.epoch + 1), |frames|), seed, |frames|, f.epoch);
      } else {
        ReconcileTold(f.(viewers := rest), v', told, |frames|, seed, FromReconcile);
      }
    }
  }

  lemma ToldAdjust(v: KeyView, op: LocalOp, v': KeyView, seed: nat, told: seq<Entry>, frames: seq<Frame>,
                     top: nat, top': nat)
    requires ToldOk(v, told, |frames|, seed) && Plain(v, op, frames) && KeyStep(v, top, op, v', top')
    requires op.Adjust?
    ensures ToldOk(v', ToldAfter(told, FramesAfter(frames, op), op, KeyAfter(v, op)), |FramesAfter(frames, op)|, seed)
  {
    if v.live.Some? && op.id in v.live.value.viewers {
      var f := v.live.value;
      var g := f.(viewers := f.viewers[op.id := f.viewers[op.id].(params := op.params)]);
      assert op.id in g.viewers;
      ReconcileTold(g, v', told, |frames|, seed, FromReconcile);
    }
  }

  lemma DrawIs(v: KeyView, op: LocalOp, told: seq<Entry>, frames: seq<Frame>)
    requires op.Draw? && v.live.Some? && Settled(v.live.value) && v.live.value.started.Some?
    ensures var e := Acked(v.live.value, op.id);
            && KeyAfter(v, op).live == Some(e.fanout)
            && ToldAfter(told, frames, op, KeyAfter(v, op)) ==
               if e.action.None? then told
               else told + [Entry(FromAck, Ack, |frames| - v.live.value.seqNo + e.fanout.nodeAcked)]
  {
    var f := v.live.value;
    assert f.viewers != map[];
    assert Acked(f, op.id).fanout.viewers.Keys == f.viewers.Keys;
  }

  lemma ToldDraw(v: KeyView, op: LocalOp, v': KeyView, seed: nat, told: seq<Entry>, frames: seq<Frame>,
                     top: nat, top': nat)
    requires ToldOk(v, told, |frames|, seed) && Plain(v, op, frames) && KeyStep(v, top, op, v', top')
    requires op.Draw?
    ensures ToldOk(v', ToldAfter(told, FramesAfter(frames, op), op, KeyAfter(v, op)), |FramesAfter(frames, op)|, seed)
  {
    if v.live.Some? {
      var f := v.live.value;
      var e := Acked(f, op.id);
      var base := |frames| - f.seqNo;
      DrawIs(v, op, told, frames);
      if e.action.Some? {
        TellAck(told, Entry(FromAck, Ack, base + e.fanout.nodeAcked), seed, |frames|, f.epoch, base + f.nodeAcked,
                f.started.value);
      }
    }
  }

  lemma ToldFromNode(v: KeyView, op: LocalOp, v': KeyView, seed: nat, told: seq<Entry>, frames: seq<Frame>,
                     top: nat, top': nat)
    requires ToldOk(v, told, |frames|, seed) && Plain(v, op, frames) && KeyStep(v, top, op, v', top')
    requires op.FromNode?
    ensures ToldOk(v', ToldAfter(told, FramesAfter(frames, op), op, KeyAfter(v, op)), |FramesAfter(frames, op)|, seed)
  {
    var after := |frames| + 1;
    assert AllShaped(told, seed, after);
    if v.live.None? {
      TellStraggler(told, Entry(FromStraggler, Stop(v.last.GetOr(v.clock)), after), seed, after, v.last, v.clock);
    }
  }

  lemma ToldRestart(v: KeyView, op: LocalOp, v': KeyView, seed: nat, told: seq<Entry>, frames: seq<Frame>,
                     top: nat, top': nat)
    requires ToldOk(v, told, |frames|, seed) && Plain(v, op, frames) && KeyStep(v, top, op, v', top')
    requires op.Restart?
    ensures ToldOk(v', ToldAfter(told, FramesAfter(frames, op), op, KeyAfter(v, op)), |FramesAfter(frames, op)|, seed)
  {
    if v.live.Some? {
      var f := v.live.value;
      var g := f.(started := None, nodeAcked := f.seqNo);
      assert AckedUpTo(told, |frames|);
      ReconcileTold(g, v', told, |frames|, seed, FromResync);
    }
  }

  lemma ToldStep(v: KeyView, op: LocalOp, v': KeyView, seed: nat, told: seq<Entry>, frames: seq<Frame>,
                     top: nat, top': nat)
    requires ToldOk(v, told, |frames|, seed) && Plain(v, op, frames) && KeyStep(v, top, op, v', top')
    ensures ToldOk(v', ToldAfter(told, FramesAfter(frames, op), op, KeyAfter(v, op)), |FramesAfter(frames, op)|, seed)
  {
    match op
    case Idle =>
    case Join(_, _) => ToldJoin(v, op, v', seed, told, frames, top, top');
    case Leave(_) => ToldLeave(v, op, v', seed, told, frames, top, top');
    case Adjust(_, _) => ToldAdjust(v, op, v', seed, told, frames, top, top');
    case Draw(_) => ToldDraw(v, op, v', seed, told, frames, top, top');
    case FromNode(_) => ToldFromNode(v, op, v', seed, told, frames, top, top');
    case Destroy =>
    case Restart => ToldRestart(v, op, v', seed, told, frames, top, top');
    case Hangup(_) =>
  }

  lemma NumbersStep(v: KeyView, op: LocalOp, v': KeyView, top: nat, top': nat, l: Ledger)
    requires NumbersOk(v, top, l.drawn, l.parted) && KeyStep(v, top, op, v', top')
    requires v.live.Some? ==> v.live.value.viewers != map[]
    ensures NumbersOk(v', top', DrawnAfter(l.drawn, v, op), PartedAfter(l.parted, l.frames, v, KeyAfter(v, op)))
  {
  }

  lemma DestroyedOk(tx: Channel, base: int, frames: seq<Frame>)
    requires Increasing(tx.log) && Genuine(tx.log, base, frames)
    ensures PartedOk(Parted(tx, base), frames) && PartedOk(Parted(Send(tx, Destroyed), base), frames)
  {
    assert (tx.log + [Destroyed])[..|tx.log|] == tx.log;
  }

  lemma GoneIs(v: KeyView, op: LocalOp, i: nat)
    requires v.live.Some? && i in KeyAfter(v, op).gone
    ensures i in v.live.value.viewers
    ensures var tx := v.live.value.viewers[i].tx;
            KeyAfter(v, op).gone[i] == tx || KeyAfter(v, op).gone[i] == Send(tx, Destroyed)
  {
  }

  lemma GoneOk(v: KeyView, op: LocalOp, l: Ledger, i: nat)
    requires v.live.Some? && FanoutOk(v.live.value, l.frames, l.drawn) && i in KeyAfter(v, op).gone
    ensures PartedOk(Parted(KeyAfter(v, op).gone[i], Base(l.frames, v.live.value)), l.frames)
  {
    GoneIs(v, op, i);
    var w := v.live.value.viewers[i];
    assert ViewerOk(w, v.live.value, Count(l.drawn, i));
    DestroyedOk(w.tx, Base(l.frames, v.live.value), l.frames);
  }

  lemma PartedGrows(p: Parted, frames: seq<Frame>, op: LocalOp)
    requires PartedOk(p, frames)
    ensures PartedOk(p, FramesAfter(frames, op))
  {
    if op.FromNode? {
      GenuineGrows(p.tx.log, p.base, frames, op.frame);
    }
  }

  /** The channels a viewer may part with: as it was, or with a final `Destroyed`. */
  lemma PartedStep(v: KeyView, op: LocalOp, l: Ledger)
    requires AllPartedOk(l.parted, l.frames)
    requires v.live.Some? ==> FanoutOk(v.live.value, l.frames, l.drawn)
    ensures AllPartedOk(PartedAfter(l.parted, l.frames, v, KeyAfter(v, op)), FramesAfter(l.frames, op))
  {
    var e := KeyAfter(v, op);
    var after := PartedAfter(l.parted, l.frames, v, e);
    forall i | i in after
      ensures PartedOk(after[i], FramesAfter(l.frames, op))
    {
      if v.live.Some? && i in e.gone {
        GoneOk(v, op, l, i);
      }
      PartedGrows(after[i], l.frames, op);
    }
  }

  lemma DrawEffect(v: KeyView, id: nat, l: Ledger)
    requires v.live.Some? && id in v.live.value.viewers
    ensures var f, after := v.live.value, KeyAfter(v, Draw(id)).live;
            after == Some(if f.viewers[id].waiting then Acked(f, id).fanout else f)
    ensures DrawnAfter(l.drawn, v, Draw(id)) ==
            if v.live.value.viewers[id].waiting then l.drawn[id := Count(l.drawn, id) + 1] else l.drawn
  {
    assert id in Acked(v.live.value, id).fanout.viewers;
  }

  lemma DrawStep(v: KeyView, id: nat, l: Ledger)
    requires v.live.Some? && FanoutOk(v.live.value, l.frames, l.drawn) && id in v.live.value.viewers
    ensures var e := KeyAfter(v, Draw(id));
            e.live.Some? && FanoutOk(e.live.value, l.frames, DrawnAfter(l.drawn, v, Draw(id)))
  {
    DrawEffect(v, id, l);
    if v.live.value.viewers[id].waiting {
      AckedOk(v.live.value, l.frames, l.drawn, id);
    }
  }

  lemma FanoutStepWith(v: KeyView, op: LocalOp, l: Ledger)
    requires v.live.Some? && FanoutOk(v.live.value, l.frames, l.drawn)
    requires op.Leave? || op.Adjust? || op.Draw?
    ensures var e := KeyAfter(v, op);
            e.live.Some? ==> FanoutOk(e.live.value, l.frames, DrawnAfter(l.drawn, v, op))
  {
    var f := v.live.value;
    if op.id in f.viewers {
      match op
      case Leave(id) =>
        if f.viewers - {id} != map[] {
          RemovedOk(f, l.frames, l.drawn, id);
        }
      case Adjust(id, params) => WithParamsOk(f, l.frames, l.drawn, id, params);
      case Draw(id) => DrawStep(v, id, l);
    }
  }

  lemma FanoutStep(v: KeyView, op: LocalOp, top: nat, l: Ledger)
    requires NumbersOk(v, top, l.drawn, l.parted)
    requires v.live.Some? ==> FanoutOk(v.live.value, l.frames, l.drawn)
    requires op.Join? ==> top < op.id
    ensures var e := KeyAfter(v, op);
            e.live.Some? ==> FanoutOk(e.live.value, FramesAfter(l.frames, op), DrawnAfter(l.drawn, v, op))
  {
    if op.Join? {
      var f := if v.live.Some? then v.live.value else NewFanout(Larger(v.last.GetOr(0), v.clock));
      AddedOk(f, l.frames, l.drawn, op.id, op.params);
    } else if v.live.Some? {
      var f := v.live.value;
      match op
      case FromNode(frame) => FramedOk(f, l.frames, l.drawn, frame);
      case Restart => RestartedOk(f, l.frames, l.drawn);
      case Hangup(id) => if id in f.viewers { HungUpOk(f, l.frames, l.drawn, id); }
      case Destroy =>
      case Idle =>
      case _ => FanoutStepWith(v, op, l);
    }
  }

  /** Whatever happens to a key, its invariant holds afterwards. */
  lemma StepKeepsKeyOk(v: KeyView, top: nat, seed: nat, l: Ledger, op: LocalOp, v': KeyView, top': nat)
    requires KeyOk(v, top, seed, l) && KeyStep(v, top, op, v', top')
    ensures KeyOk(v', top', seed, Written(l, v, op, KeyAfter(v, op)))
  {
    if op.Draw? && v.live.Some? && op.id in v.live.value.viewers {
      assert ViewerOk(v.live.value.viewers[op.id], v.live.value, Count(l.drawn, op.id));
    }
    ToldStep(v, op, v', seed, l.told, l.frames, top, top');
    NumbersStep(v, op, v', top, top', l);
    PartedStep(v, op, l);
    FanoutStep(v, op, top, l);
  }
}
