/**
  Exactly what every operation of a run sends: who is a viewer, what each viewer is sent and when the node
  is acked, told from the calls and from what was sent before.
*/
module ScreencastDelivery {
  import opened Wrappers
  import opened Screencast
  import opened ScreencastLedger
  import opened ScreencastInvariant
  import opened ScreencastTable
  import opened ScreencastRuns

  /** The frames the node sent for `k` in the first `n` operations. */
  ghost function FramesAt(r: Run, k: Key, n: nat): seq<Frame>
    requires IsRun(r) && n <= |r.ops|
  {
    LedgerAt(r, k, n).frames
  }

  /** `ops[n]` ends whatever the hub has about `k`. */
  ghost predicate EndsKey(r: Run, k: Key, n: nat)
    requires IsRun(r) && n < |r.ops|
  {
    var op := r.ops[n];
    || op == DestroyBrowser(k)
    || op == DestroyMachine(k.machine)
    || (op.ResyncMachine? && op.machine == k.machine && k.browser !in op.present)
  }

  /** `ops[n]` finds that `k` survived a restart of its node. */
  ghost predicate Resyncs(r: Run, k: Key, n: nat)
    requires IsRun(r) && n < |r.ops|
  {
    r.ops[n].ResyncMachine? && r.ops[n].machine == k.machine && k.browser in r.ops[n].present
  }

  ghost predicate Watched(r: Run, k: Key, n: nat)
    requires IsRun(r) && n <= |r.ops|
  {
    k in r.tables[n].fanouts
  }

  ghost predicate Views(r: Run, k: Key, n: nat, id: nat)
    requires IsRun(r) && n <= |r.ops|
  {
    Watched(r, k, n) && id in r.tables[n].fanouts[k].viewers
  }

  ghost function ViewerAt(r: Run, k: Key, n: nat, id: nat): Viewer
    requires IsRun(r) && n <= |r.ops| && Views(r, k, n, id)
  {
    r.tables[n].fanouts[k].viewers[id]
  }

  ghost function LogAt(r: Run, k: Key, n: nat, id: nat): seq<ViewerMsg>
    requires IsRun(r) && n <= |r.ops| && Views(r, k, n, id)
  {
    ViewerAt(r, k, n, id).tx.log
  }

  lemma FramesGrow(r: Run, k: Key, n: nat)
    requires IsRun(r) && n < |r.ops|
    ensures FramesAt(r, k, n) <= FramesAt(r, k, n + 1)
  {
    LedgerIs(r, k, n + 1);
  }

  /** How many frames the node had sent when the viewers of now began to watch. */
  ghost function Began(r: Run, k: Key, n: nat): (b: nat)
    requires IsRun(r) && n <= |r.ops|
    ensures b <= |FramesAt(r, k, n)|
  {
    if n == 0 || !Watched(r, k, n) then |FramesAt(r, k, n)|
    else
      FramesGrow(r, k, n - 1);
      Began(r, k, n - 1)
  }

  /** Viewer `id` was sent a frame it did not ack yet. */
  ghost predicate Owes(r: Run, k: Key, n: nat, id: nat)
    requires IsRun(r) && n <= |r.ops|
  {
    Views(r, k, n, id) && |LogAt(r, k, n, id)| > Count(LedgerAt(r, k, n).drawn, id)
  }

  /** The number, among all frames for `k`, of the newest one viewer `id` was sent. */
  ghost function NewestSent(r: Run, k: Key, n: nat, id: nat): nat
    requires IsRun(r) && n <= |r.ops|
  {
    if !Views(r, k, n, id) || LogAt(r, k, n, id) == [] then 0
    else
      var last := LogAt(r, k, n, id)[|LogAt(r, k, n, id)| - 1];
      if last.FrameMsg? then Began(r, k, n) + last.stamped.num else 0
  }

  /** The number of the newest frame the node need not wait for: one that a viewer acked, or all those
      before a resync, or before anybody watched. */
  ghost function Released(r: Run, k: Key, n: nat): nat
    requires IsRun(r) && n <= |r.ops|
  {
    if n == 0 || !Watched(r, k, n) || Resyncs(r, k, n - 1) then |FramesAt(r, k, n)|
    else if r.ops[n - 1].ViewerAck? && r.ops[n - 1].key == k && Owes(r, k, n - 1, r.ops[n - 1].id)
            && NewestSent(r, k, n - 1, r.ops[n - 1].id) > Released(r, k, n - 1)
    then NewestSent(r, k, n - 1, r.ops[n - 1].id)
    else Released(r, k, n - 1)
  }

  /** The step key `k` takes in operation `n`. */
  lemma KeyMoves(r: Run, k: Key, n: nat)
    requires IsRun(r) && n < |r.ops|
    ensures var e := KeyAfter(ViewOf(r.tables[n], k), LocalAt(r, k, n));
            At(r.tables[n + 1].fanouts, k) == e.live && At(r.told[n], k) == e.told
    ensures Watched(r, k, n) ==> r.tables[n].fanouts[k].viewers != map[]
  {
    StepOfRun(r, k, n);
    RunKeepsKeyOk(r, k, n);
  }

  lemma FramesMove(r: Run, k: Key, n: nat)
    requires IsRun(r) && n < |r.ops|
    ensures FramesAt(r, k, n + 1) == FramesAfter(FramesAt(r, k, n), LocalAt(r, k, n))
    ensures LocalAt(r, k, n) == Restart <==> Watched(r, k, n) && Resyncs(r, k, n)
  {
    LedgerIs(r, k, n + 1);
  }

  // ---------- The counters ----------

  /** How one operation moves the counters of a fan-out that was and stays live. */
  lemma CountersMove(v: KeyView, op: LocalOp)
    requires v.live.Some? && v.live.value.viewers != map[] && KeyAfter(v, op).live.Some?
    ensures var f, g := v.live.value, KeyAfter(v, op).live.value;
            && g.seqNo == (if op.FromNode? then f.seqNo + 1 else f.seqNo)
            && g.nodeAcked == (if op.Restart? then f.seqNo
                               else if op.Draw? && op.id in f.viewers && f.viewers[op.id].waiting
                                       && f.viewers[op.id].sentSeq > f.nodeAcked then f.viewers[op.id].sentSeq
                               else f.nodeAcked)
  {
  }

  lemma CountersStart(v: KeyView, op: LocalOp)
    requires v.live.None? && KeyAfter(v, op).live.Some?
    ensures op.Join? && KeyAfter(v, op).live.value.seqNo == 0 && KeyAfter(v, op).live.value.nodeAcked == 0
  {
  }

  /** What the invariant says of one viewer. */
  lemma ViewerIs(r: Run, k: Key, n: nat, id: nat)
    requires IsRun(r) && n <= |r.ops| && Views(r, k, n, id)
    ensures var f, v, l := r.tables[n].fanouts[k], ViewerAt(r, k, n, id), LedgerAt(r, k, n);
            && FanoutOk(f, l.frames, l.drawn) && ViewerOk(v, f, Count(l.drawn, id))
            && (v.waiting <==> Owes(r, k, n, id))
  {
    RunKeepsKeyOk(r, k, n);
  }

  lemma CountersAre(r: Run, k: Key, n: nat)
    requires IsRun(r) && n < |r.ops|
    ensures FramesAt(r, k, n + 1) == FramesAfter(FramesAt(r, k, n), LocalAt(r, k, n))
    ensures LocalAt(r, k, n) == Restart <==> Watched(r, k, n) && Resyncs(r, k, n)
    ensures Watched(r, k, n) && Watched(r, k, n + 1) ==>
              var f, g, op := r.tables[n].fanouts[k], r.tables[n + 1].fanouts[k], LocalAt(r, k, n);
              && g.seqNo == (if op.FromNode? then f.seqNo + 1 else f.seqNo)
              && g.nodeAcked == (if op.Restart? then f.seqNo
                                 else if op.Draw? && op.id in f.viewers && f.viewers[op.id].waiting
                                         && f.viewers[op.id].sentSeq > f.nodeAcked then f.viewers[op.id].sentSeq
                                 else f.nodeAcked)
    ensures !Watched(r, k, n) && Watched(r, k, n + 1) ==>
              && r.tables[n + 1].fanouts[k].seqNo == 0 && r.tables[n + 1].fanouts[k].nodeAcked == 0
              && FramesAt(r, k, n + 1) == FramesAt(r, k, n) && !Resyncs(r, k, n)
  {
    KeyMoves(r, k, n);
    FramesMove(r, k, n);
    var v := ViewOf(r.tables[n], k);
    if Watched(r, k, n + 1) {
      if Watched(r, k, n) {
        CountersMove(v, LocalAt(r, k, n));
      } else {
        CountersStart(v, LocalAt(r, k, n));
      }
    }
  }

  /** The fan-out's own numbers start when its viewers began to watch, and it has acked what is released. */
  lemma {:induction false} CountersSay(r: Run, k: Key, n: nat)
    requires IsRun(r) && n <= |r.ops| && Watched(r, k, n)
    ensures var f := r.tables[n].fanouts[k];
            Began(r, k, n) + f.seqNo == |FramesAt(r, k, n)| && Began(r, k, n) + f.nodeAcked == Released(r, k, n)
    decreases n
  {
    if n > 0 {
      CountersAre(r, k, n - 1);
      if Watched(r, k, n - 1) {
        CountersSay(r, k, n - 1);
        var op := r.ops[n - 1];
        if op.ViewerAck? && op.key == k && Views(r, k, n - 1, op.id) {
          NewestSentIs(r, k, n - 1, op.id);
        }
      }
    }
  }

  /** The newest frame a viewer was sent, as the fan-out remembers it. */
  lemma NewestSentIs(r: Run, k: Key, n: nat, id: nat)
    requires IsRun(r) && n <= |r.ops| && Views(r, k, n, id)
    ensures ViewerAt(r, k, n, id).waiting <==> Owes(r, k, n, id)
    ensures LogAt(r, k, n, id) != [] ==> NewestSent(r, k, n, id) == Began(r, k, n) + ViewerAt(r, k, n, id).sentSeq
    ensures Owes(r, k, n, id) ==> LogAt(r, k, n, id) != []
  {
    ViewerIs(r, k, n, id);
  }

  // ---------- What the node is told ----------

  lemma ViewersMove(v: KeyView, op: LocalOp, id: nat)
    requires v.live.Some? ==> v.live.value.viewers != map[]
    ensures var e := KeyAfter(v, op);
            (e.live.Some? && id in e.live.value.viewers) <==>
            || (op.Join? && op.id == id)
            || (v.live.Some? && id in v.live.value.viewers && !op.Destroy? && !(op.Leave? && op.id == id))
  {
    if v.live.Some? && id in v.live.value.viewers {
      var f := v.live.value;
      match op
      case Leave(x) => assert x != id ==> id in Removed(f, x).fanout.viewers;
      case Adjust(x, params) => assert id in WithParams(f, x, params).fanout.viewers;
      case Draw(x) => assert id in Acked(f, x).fanout.viewers;
      case _ =>
    }
  }

  lemma EffectTold(v: KeyView, op: LocalOp)
    requires v.live.Some? ==> v.live.value.viewers != map[]
    ensures op.Draw? ==>
              KeyAfter(v, op).told ==
              if v.live.Some? && op.id in v.live.value.viewers && v.live.value.viewers[op.id].waiting
                 && v.live.value.viewers[op.id].sentSeq > v.live.value.nodeAcked then Some(Ack) else None
    ensures op.FromNode? ==>
              KeyAfter(v, op).told == if v.live.Some? then None else Some(Stop(v.last.GetOr(v.clock)))
    ensures op.Idle? || op.Destroy? || op.Hangup? ==> KeyAfter(v, op).told == None
    ensures !op.Draw? ==> KeyAfter(v, op).told != Some(Ack)
  {
  }

  /** The ack of viewer `id` in operation `n` is the first for a frame newer than all released. */
  ghost predicate Releases(r: Run, k: Key, n: nat)
    requires IsRun(r) && n < |r.ops|
  {
    && r.ops[n].ViewerAck? && r.ops[n].key == k && Owes(r, k, n, r.ops[n].id)
    && NewestSent(r, k, n, r.ops[n].id) > Released(r, k, n)
  }

  lemma ReleasesIs(r: Run, k: Key, n: nat)
    requires IsRun(r) && n < |r.ops|
    ensures Releases(r, k, n) <==>
              var op := LocalAt(r, k, n);
              && op.Draw? && Views(r, k, n, op.id) && ViewerAt(r, k, n, op.id).waiting
              && ViewerAt(r, k, n, op.id).sentSeq > r.tables[n].fanouts[k].nodeAcked
  {
    var op := r.ops[n];
    if op.ViewerAck? && op.key == k && Views(r, k, n, op.id) {
      NewestSentIs(r, k, n, op.id);
      CountersSay(r, k, n);
    }
  }

  /** The node is acked exactly when a viewer acks a frame newer than everything acked since anybody
      watches and since the last resync; nothing else is an ack. */
  lemma AckedIff(r: Run, k: Key, n: nat)
    requires IsRun(r) && n < |r.ops|
    ensures At(r.told[n], k) == Some(Ack) <==> Releases(r, k, n)
  {
    KeyMoves(r, k, n);
    EffectTold(ViewOf(r.tables[n], k), LocalAt(r, k, n));
    ReleasesIs(r, k, n);
  }

  /** And the frame the node is acked for is the one that viewer was sent last. */
  lemma AckedFrame(r: Run, k: Key, n: nat)
    requires IsRun(r) && n < |r.ops| && Releases(r, k, n)
    ensures var told := LedgerAt(r, k, n + 1).told;
            && told != [] && told[|told| - 1].action == Ack
            && told[|told| - 1].frame == NewestSent(r, k, n, r.ops[n].id)
  {
    AckedIff(r, k, n);
    KeyMoves(r, k, n);
    LedgerIs(r, k, n + 1);
    ReleasesIs(r, k, n);
    ViewersMove(ViewOf(r.tables[n], k), LocalAt(r, k, n), r.ops[n].id);
    CountersAre(r, k, n);
    CountersSay(r, k, n + 1);
  }

  /** An operation that is neither a change of viewers nor a resync tells the node nothing but that ack, or,
      to a frame nobody watches, that it is to stop. */
  lemma ToldOtherwise(r: Run, k: Key, n: nat)
    requires IsRun(r) && n < |r.ops|
    requires !r.ops[n].AddViewer? && !r.ops[n].RemoveViewer? && !r.ops[n].SetParams? && !r.ops[n].ResyncMachine?
    ensures At(r.told[n], k) ==
            if Releases(r, k, n) then Some(Ack)
            else if r.ops[n].OnFrame? && r.ops[n].key == k && !Watched(r, k, n) then
              Some(Stop(At(r.tables[n].lastEpochs, k).GetOr(r.tables[n].clock)))
            else None
  {
    KeyMoves(r, k, n);
    EffectTold(ViewOf(r.tables[n], k), LocalAt(r, k, n));
    ReleasesIs(r, k, n);
  }

  lemma AckedWithin(r: Run, k: Key, n: nat)
    requires IsRun(r) && n <= |r.ops| && Watched(r, k, n)
    ensures Released(r, k, n) <= |FramesAt(r, k, n)|
  {
    CountersSay(r, k, n);
    RunKeepsKeyOk(r, k, n);
  }

  /** A frame somebody watches leaves the node waiting until such an ack, a resync, or the last viewer goes. */
  lemma {:induction false} NodeWaits(r: Run, k: Key, m: nat, n: nat)
    requires IsRun(r) && m < n <= |r.ops| && r.ops[m].OnFrame? && r.ops[m].key == k
    requires forall i :: m <= i <= n ==> Watched(r, k, i)
    requires forall i :: m < i < n ==> At(r.told[i], k) != Some(Ack) && !Resyncs(r, k, i)
    ensures At(r.told[m], k) == None
    ensures Released(r, k, n) == Released(r, k, m) < |FramesAt(r, k, n)|
    ensures r.tables[n].fanouts[k].nodeAcked < r.tables[n].fanouts[k].seqNo
    decreases n
  {
    ToldOtherwise(r, k, m);
    CountersAre(r, k, n - 1);
    CountersSay(r, k, n);
    FramesGrow(r, k, n - 1);
    if n == m + 1 {
      AckedWithin(r, k, m);
    } else {
      AckedIff(r, k, n - 1);
      NodeWaits(r, k, m, n - 1);
    }
  }

  // ---------- Who watches ----------

  ghost predicate Joins(r: Run, k: Key, n: nat, id: nat)
    requires IsRun(r) && n < |r.ops|
  {
    r.ops[n].AddViewer? && r.ops[n].key == k && id == r.tables[n].top + 1
  }

  lemma LocalIs(r: Run, k: Key, n: nat)
    requires IsRun(r) && n < |r.ops|
    ensures Watched(r, k, n) ==> (LocalAt(r, k, n) == Destroy <==> EndsKey(r, k, n))
    ensures forall id :: LocalAt(r, k, n).Join? && LocalAt(r, k, n).id == id <==> Joins(r, k, n, id)
    ensures forall id :: LocalAt(r, k, n) == Leave(id) <==> r.ops[n] == RemoveViewer(k, id)
  {
  }

  /** Who views: whoever joined and was neither removed nor lost the browser. */
  lemma ViewsIff(r: Run, k: Key, n: nat, id: nat)
    requires IsRun(r) && n < |r.ops|
    ensures Views(r, k, n + 1, id) <==>
            || Joins(r, k, n, id)
            || (Views(r, k, n, id) && !EndsKey(r, k, n) && r.ops[n] != RemoveViewer(k, id))
  {
    KeyMoves(r, k, n);
    LocalIs(r, k, n);
    ViewersMove(ViewOf(r.tables[n], k), LocalAt(r, k, n), id);
  }

  // ---------- What a viewer is sent ----------

  lemma ViewerMoves(v: KeyView, op: LocalOp, id: nat)
    requires v.live.Some? && id in v.live.value.viewers && !(op.Join? && op.id == id)
    requires KeyAfter(v, op).live.Some? && id in KeyAfter(v, op).live.value.viewers
    ensures var f := v.live.value;
            var u, w := f.viewers[id], KeyAfter(v, op).live.value.viewers[id];
            && w.params == (if op.Adjust? && op.id == id then op.params else u.params)
            && (w.tx.open <==> u.tx.open && !(op.Hangup? && op.id == id))
            && w.tx.log == u.tx.log +
                 if !u.tx.open then []
                 else if op.FromNode? && !u.waiting then [FrameMsg(Stamped(f.seqNo + 1, op.frame))]
                 else if op.Draw? && op.id == id && u.waiting && u.slot.Some? then [FrameMsg(u.slot.value)]
                 else []
  {
  }

  /** The newest frame since somebody watches, if there is one, with the number the fan-out gives it. */
  ghost function NewestFrame(r: Run, k: Key, n: nat): seq<ViewerMsg>
    requires IsRun(r) && n <= |r.ops|
  {
    var frames, began := FramesAt(r, k, n), Began(r, k, n);
    if began < |frames| then [FrameMsg(Stamped(|frames| - began, frames[|frames| - 1]))] else []
  }

  lemma SlotIs(r: Run, k: Key, n: nat, id: nat)
    requires IsRun(r) && n <= |r.ops| && Owes(r, k, n, id)
    ensures NewestFrame(r, k, n) != []
    ensures ViewerAt(r, k, n, id).slot ==
            if NewestSent(r, k, n, id) < |FramesAt(r, k, n)| then Some(NewestFrame(r, k, n)[0].stamped) else None
  {
    ViewerIs(r, k, n, id);
    NewestSentIs(r, k, n, id);
    CountersSay(r, k, n);
  }

  lemma NumberIsOld(r: Run, k: Key, n: nat, id: nat)
    requires IsRun(r) && n <= |r.ops| && Views(r, k, n, id)
    ensures id <= r.tables[n].top
  {
    RunKeepsKeyOk(r, k, n);
  }

  /** What operation `n` sends to a viewer that keeps watching: a frame from the node if it owes no ack;
      and, when it acks, the newest frame if that is not the one it acks. */
  lemma SentExactly(r: Run, k: Key, n: nat, id: nat)
    requires IsRun(r) && n < |r.ops| && Views(r, k, n, id) && Views(r, k, n + 1, id)
    ensures var op := r.ops[n];
            LogAt(r, k, n + 1, id) == LogAt(r, k, n, id) +
              if !ViewerAt(r, k, n, id).tx.open then []
              else if op.OnFrame? && op.key == k && !Owes(r, k, n, id) then
                [FrameMsg(Stamped(|FramesAt(r, k, n)| + 1 - Began(r, k, n), op.frame))]
              else if op == ViewerAck(k, id) && Owes(r, k, n, id) && NewestSent(r, k, n, id) < |FramesAt(r, k, n)|
              then NewestFrame(r, k, n)
              else []
    ensures ViewerAt(r, k, n + 1, id).tx.open <==>
            ViewerAt(r, k, n, id).tx.open && r.ops[n] != ReceiverDropped(k, id)
    ensures ViewerAt(r, k, n + 1, id).params ==
            if r.ops[n].SetParams? && r.ops[n].key == k && r.ops[n].id == id then r.ops[n].params
            else ViewerAt(r, k, n, id).params
  {
    KeyMoves(r, k, n);
    NumberIsOld(r, k, n, id);
    ViewerMoves(ViewOf(r.tables[n], k), LocalAt(r, k, n), id);
    NewestSentIs(r, k, n, id);
    CountersSay(r, k, n);
    if Owes(r, k, n, id) {
      SlotIs(r, k, n, id);
    }
  }

  lemma LastFrameIs(r: Run, k: Key, n: nat)
    requires IsRun(r) && n <= |r.ops| && Watched(r, k, n)
    ensures NewestFrame(r, k, n) ==
            match r.tables[n].fanouts[k].lastFrame case None => [] case Some(newest) => [FrameMsg(newest)]
  {
    RunKeepsKeyOk(r, k, n);
    CountersSay(r, k, n);
  }

  lemma JoinerIs(v: KeyView, op: LocalOp)
    requires op.Join?
    ensures var e := KeyAfter(v, op);
            && e.live.Some? && op.id in e.live.value.viewers
            && e.live.value.viewers[op.id].params == op.params
            && e.live.value.viewers[op.id].tx ==
               Channel(true,
                       if v.live.Some? && v.live.value.lastFrame.Some?
                       then [FrameMsg(v.live.value.lastFrame.value)] else [])
  {
  }

  /** A viewer that joins is shown the newest frame since anybody watches, acked or not, if there is one. */
  lemma JoinedIsShownNewest(r: Run, k: Key, n: nat)
    requires IsRun(r) && n < |r.ops| && r.ops[n].AddViewer? && r.ops[n].key == k
    ensures var id := r.tables[n].top + 1;
            && Views(r, k, n + 1, id)
            && ViewerAt(r, k, n + 1, id).params == r.ops[n].params
            && ViewerAt(r, k, n + 1, id).tx ==
               Channel(true, NewestFrame(r, k, n))
  {
    KeyMoves(r, k, n);
    JoinerIs(ViewOf(r.tables[n], k), LocalAt(r, k, n));
    if Watched(r, k, n) {
      LastFrameIs(r, k, n);
    }
  }

  // ---------- Leaving ----------

  lemma GoneExactly(v: KeyView, op: LocalOp, id: nat)
    requires v.live.Some? && id in v.live.value.viewers
    requires op.Destroy? || (op.Leave? && op.id == id)
    ensures var tx := v.live.value.viewers[id].tx;
            && id in KeyAfter(v, op).gone
            && KeyAfter(v, op).gone[id] == if op.Destroy? && tx.open then tx.(log := tx.log + [Destroyed]) else tx
  {
  }

  /** Whoever stops viewing has parted, and was told `Destroyed` exactly if the browser went, rather than
      the viewer, and its receiver was still there. */
  lemma PartsExactly(r: Run, k: Key, n: nat, id: nat)
    requires IsRun(r) && n < |r.ops| && Views(r, k, n, id) && !Views(r, k, n + 1, id)
    ensures EndsKey(r, k, n) || r.ops[n] == RemoveViewer(k, id)
    ensures var tx, l := ViewerAt(r, k, n, id).tx, LedgerAt(r, k, n + 1);
            && id in l.parted
            && l.parted[id].tx == if EndsKey(r, k, n) && tx.open then tx.(log := tx.log + [Destroyed]) else tx
  {
    ViewsIff(r, k, n, id);
    LocalIs(r, k, n);
    LedgerIs(r, k, n + 1);
    GoneExactly(ViewOf(r.tables[n], k), LocalAt(r, k, n), id);
  }

  /** A browser or machine that is destroyed, or that the node no longer reports, is gone with all its
      viewers, each told so if it still listens; every other key stays as it was. */
  lemma DestroyedIsTold(r: Run, k: Key, n: nat)
    requires IsRun(r) && n < |r.ops| && EndsKey(r, k, n)
    ensures !Watched(r, k, n + 1) && At(r.told[n], k) == None
    ensures Watched(r, k, n) || !r.ops[n].ResyncMachine? ==> k !in r.tables[n + 1].lastEpochs
    ensures forall id :: Views(r, k, n, id) ==>
              var tx, parted := ViewerAt(r, k, n, id).tx, LedgerAt(r, k, n + 1).parted;
              && id in parted
              && parted[id].tx == if tx.open then tx.(log := tx.log + [Destroyed]) else tx
  {
    StepOfRun(r, k, n);
    RunKeepsKeyOk(r, k, n);
    forall id | Views(r, k, n, id)
      ensures var tx, parted := ViewerAt(r, k, n, id).tx, LedgerAt(r, k, n + 1).parted;
              && id in parted
              && parted[id].tx == if tx.open then tx.(log := tx.log + [Destroyed]) else tx
    {
      ViewsIff(r, k, n, id);
      PartsExactly(r, k, n, id);
    }
  }

  lemma LastMoves(v: KeyView, op: LocalOp)
    requires v.live.Some? ==> Settled(v.live.value) && v.last == None
    ensures var e := KeyAfter(v, op);
            && (op.Destroy? || op.Join? ==> e.last == None)
            && (v.live.Some? && e.live.None? && !op.Destroy? ==>
                  e.last.Some? && e.told == Some(Stop(e.last.value)))
            && (!op.Destroy? && !op.Join? && !(v.live.Some? && e.live.None?) ==> e.last == v.last)
  {
    if op.Leave? && v.live.Some? && op.id in v.live.value.viewers && v.live.value.viewers - {op.id} == map[] {
      WantedIsMax(v.live.value.viewers);
      WantedIsMax(map[]);
    }
  }

  /** The epoch of the Stop that the last viewer's leaving sends is remembered, and for as long as nobody joins
      and the browser is not destroyed. */
  lemma RememberedExactly(r: Run, k: Key, n: nat)
    requires IsRun(r) && n < |r.ops|
    ensures var was, now := At(r.tables[n].lastEpochs, k), At(r.tables[n + 1].lastEpochs, k);
            if Joins(r, k, n, r.tables[n].top + 1) then now == None
            else if EndsKey(r, k, n) && (Watched(r, k, n) || !r.ops[n].ResyncMachine?) then now == None
            else if Watched(r, k, n) && !Watched(r, k, n + 1) then
              now.Some? && At(r.told[n], k) == Some(Stop(now.value))
            else now == was
  {
    StepOfRun(r, k, n);
    RunKeepsKeyOk(r, k, n);
    LastMoves(ViewOf(r.tables[n], k), LocalAt(r, k, n));
  }

  lemma OthersStay(r: Run, k: Key, n: nat)
    requires IsRun(r) && n < |r.ops|
    requires match r.ops[n]
             case DestroyMachine(machine) => machine != k.machine
             case ResyncMachine(machine, _) => machine != k.machine
             case _ => r.ops[n].key != k
    ensures At(r.tables[n + 1].fanouts, k) == At(r.tables[n].fanouts, k)
    ensures At(r.tables[n + 1].lastEpochs, k) == At(r.tables[n].lastEpochs, k)
    ensures At(r.told[n], k) == None
  {
    StepOfRun(r, k, n);
  }

  // ---------- Parameters ----------

  /** What viewer `id` asked for last in the first `n` operations. */
  ghost function Asked(r: Run, k: Key, n: nat, id: nat): Option<Params>
    requires IsRun(r) && n <= |r.ops|
  {
    if n == 0 then None
    else if Joins(r, k, n - 1, id) then Some(r.ops[n - 1].params)
    else if r.ops[n - 1].SetParams? && r.ops[n - 1].key == k && r.ops[n - 1].id == id then Some(r.ops[n - 1].params)
    else Asked(r, k, n - 1, id)
  }

  /** A viewer's parameters are those it asked for last. */
  lemma {:induction false} ParamsAreAsked(r: Run, k: Key, n: nat, id: nat)
    requires IsRun(r) && n <= |r.ops| && Views(r, k, n, id)
    ensures Some(ViewerAt(r, k, n, id).params) == Asked(r, k, n, id)
    decreases n
  {
    if n > 0 {
      ViewsIff(r, k, n - 1, id);
      if Joins(r, k, n - 1, id) {
        JoinedIsShownNewest(r, k, n - 1);
      } else {
        ParamsAreAsked(r, k, n - 1, id);
        SentExactly(r, k, n - 1, id);
      }
    }
  }
}
