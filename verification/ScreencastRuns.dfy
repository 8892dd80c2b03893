/**
  What holds in every run of the table: any sequence of operations on any keys, from any seed of
  the epoch clock, with receivers dropped at any moment.
*/
module ScreencastRuns {
  import opened Wrappers
  import opened Screencast
  import opened ScreencastLedger
  import opened ScreencastInvariant
  import opened ScreencastTable

  datatype Run = Run(seed: nat, tables: seq<Table>, ops: seq<Op>, told: seq<map<Key, NodeAction>>)

  /** `tables[n]` is the table after the first n operations, `told[n]` what operation n told the nodes. */
  ghost predicate IsRun(r: Run) {
    && |r.tables| == |r.ops| + 1 && |r.told| == |r.ops|
    && r.tables[0] == Table(map[], map[], r.seed, 0)
    && forall n :: 0 <= n < |r.ops| ==> StepAt(r, n)
  }

  ghost predicate StepAt(r: Run, n: int)
    requires |r.tables| == |r.ops| + 1 && |r.told| == |r.ops| && 0 <= n < |r.ops|
  {
    Next(r.tables[n], r.ops[n], r.tables[n + 1], r.told[n])
  }

  ghost function LocalAt(r: Run, k: Key, n: nat): LocalOp
    requires IsRun(r) && n < |r.ops|
  {
    Local(r.tables[n], r.ops[n], k)
  }

  /** `ledgers[n]` is all that happened to key `k` in the first n operations. */
  ghost predicate AreLedgers(r: Run, k: Key, ledgers: seq<Ledger>)
    requires IsRun(r)
  {
    && 0 < |ledgers| <= |r.ops| + 1 && ledgers[0] == EMPTY_LEDGER
    && forall n :: 0 < n < |ledgers| ==> WrittenAt(r, k, ledgers, n)
  }

  ghost predicate WrittenAt(r: Run, k: Key, ledgers: seq<Ledger>, n: int)
    requires IsRun(r) && |ledgers| <= |r.ops| + 1 && 0 < n < |ledgers|
  {
    var t, op := r.tables[n - 1], r.ops[n - 1];
    ledgers[n] == Written(ledgers[n - 1], ViewOf(t, k), LocalAt(r, k, n - 1), EffectOn(t, op, k))
  }

  lemma {:induction false} LedgersExist(r: Run, k: Key, n: nat) returns (ledgers: seq<Ledger>)
    requires IsRun(r) && n <= |r.ops|
    ensures AreLedgers(r, k, ledgers) && |ledgers| == n + 1
  {
    if n == 0 {
      ledgers := [EMPTY_LEDGER];
    } else {
      var before := LedgersExist(r, k, n - 1);
      var t, op := r.tables[n - 1], r.ops[n - 1];
      ledgers := before + [Written(before[n - 1], ViewOf(t, k), LocalAt(r, k, n - 1), EffectOn(t, op, k))];
      forall i | 0 < i < |ledgers| ensures WrittenAt(r, k, ledgers, i) {
        assert i < n ==> WrittenAt(r, k, before, i);
      }
    }
  }

  ghost function Ledgers(r: Run, k: Key): (ledgers: seq<Ledger>)
    requires IsRun(r)
    ensures AreLedgers(r, k, ledgers) && |ledgers| == |r.ops| + 1
  {
    assert exists ledgers :: AreLedgers(r, k, ledgers) && |ledgers| == |r.ops| + 1 by {
      var ledgers := LedgersExist(r, k, |r.ops|);
    }
    var ledgers :| AreLedgers(r, k, ledgers) && |ledgers| == |r.ops| + 1;
    ledgers
  }

  /** All that happened to key `k` in the first `n` operations. */
  ghost function LedgerAt(r: Run, k: Key, n: nat): Ledger
    requires IsRun(r) && n <= |r.ops|
  {
    Ledgers(r, k)[n]
  }

  lemma LedgerIs(r: Run, k: Key, n: nat)
    requires IsRun(r) && n <= |r.ops|
    ensures LedgerAt(r, k, n) ==
            if n == 0 then EMPTY_LEDGER
            else Written(LedgerAt(r, k, n - 1), ViewOf(r.tables[n - 1], k), LocalAt(r, k, n - 1),
                         EffectOn(r.tables[n - 1], r.ops[n - 1], k))
  {
    assert n > 0 ==> WrittenAt(r, k, Ledgers(r, k), n);
  }

  lemma NextIsKeyStep(t: Table, op: Op, t': Table, told: map<Key, NodeAction>, k: Key)
    requires Next(t, op, t', told)
    ensures KeyNext(t, op, t', told, k) && t'.top == if op.AddViewer? then t.top + 1 else t.top
    ensures KeyStep(ViewOf(t, k), t.top, Local(t, op, k), ViewOf(t', k), t'.top)
    ensures At(told, k) == EffectOn(t, op, k).told
  {
    assert KeyNext(t, op, t', told, k);
  }

  /** Operation `n`, as key `k` experiences it. */
  lemma StepOfRun(r: Run, k: Key, n: nat)
    requires IsRun(r) && n < |r.ops|
    ensures var t, op, t' := r.tables[n], r.ops[n], r.tables[n + 1];
            && KeyNext(t, op, t', r.told[n], k) && t'.top == (if op.AddViewer? then t.top + 1 else t.top)
            && KeyStep(ViewOf(t, k), t.top, Local(t, op, k), ViewOf(t', k), t'.top)
            && At(r.told[n], k) == EffectOn(t, op, k).told
  {
    assert StepAt(r, n);
    NextIsKeyStep(r.tables[n], r.ops[n], r.tables[n + 1], r.told[n], k);
  }

  lemma KeyOkStep(r: Run, k: Key, n: nat)
    requires IsRun(r) && 0 < n <= |r.ops|
    requires KeyOk(ViewOf(r.tables[n - 1], k), r.tables[n - 1].top, r.seed, LedgerAt(r, k, n - 1))
    ensures KeyOk(ViewOf(r.tables[n], k), r.tables[n].top, r.seed, LedgerAt(r, k, n))
  {
    StepOfRun(r, k, n - 1);
    LedgerIs(r, k, n);
    StepKeepsKeyOk(ViewOf(r.tables[n - 1], k), r.tables[n - 1].top, r.seed, LedgerAt(r, k, n - 1), LocalAt(r, k, n - 1),
                   ViewOf(r.tables[n], k), r.tables[n].top);
  }

  lemma {:induction false} RunKeepsKeyOk(r: Run, k: Key, n: nat)
    requires IsRun(r) && n <= |r.ops|
    ensures KeyOk(ViewOf(r.tables[n], k), r.tables[n].top, r.seed, LedgerAt(r, k, n))
  {
    if n == 0 {
      LedgerIs(r, k, 0);
    } else {
      RunKeepsKeyOk(r, k, n - 1);
      KeyOkStep(r, k, n);
    }
  }

  // ---------- Flow control ----------

  /** While the node waits for an ack, everyone still listening holds its newest frame, sent or in
      the slot, and owes an ack: nobody can be idle. */
  lemma NoStall(r: Run, k: Key, n: nat, id: nat)
    requires IsRun(r) && n <= |r.ops| && k in r.tables[n].fanouts
    requires var f := r.tables[n].fanouts[k]; f.nodeAcked < f.seqNo && id in f.viewers && f.viewers[id].tx.open
    ensures var f := r.tables[n].fanouts[k];
            var v := f.viewers[id];
            var frames := LedgerAt(r, k, n).frames;
            && v.waiting && frames != [] && v.tx.log != []
            && var newest := Stamped(f.seqNo, frames[|frames| - 1]);
               (if v.slot.Some? then v.slot == Some(newest) else v.tx.log[|v.tx.log| - 1] == FrameMsg(newest))
  {
    RunKeepsKeyOk(r, k, n);
    var f := r.tables[n].fanouts[k];
    var l := LedgerAt(r, k, n);
    assert ViewerOk(f.viewers[id], f, Count(l.drawn, id)) && Genuine(f.viewers[id].tx.log, Base(l.frames, f), l.frames);
    assert f.viewers[id].slot.None? ==> f.viewers[id].sentSeq == f.seqNo;
  }

  /** Acks viewer `v` may still have to give before the node is released. */
  function Debt(f: FanoutState, v: Viewer): nat {
    if f.nodeAcked == f.seqNo then 0 else if v.slot.None? then 1 else 2
  }

  ghost predicate Watching(v: KeyView, id: nat) {
    v.live.Some? && id in v.live.value.viewers && v.live.value.viewers[id].tx.open
  }

  function DebtOf(v: KeyView, id: nat): nat
    requires v.live.Some? && id in v.live.value.viewers
  {
    Debt(v.live.value, v.live.value.viewers[id])
  }

  lemma WatchingBefore(v: KeyView, top: nat, op: LocalOp, v': KeyView, top': nat, id: nat)
    requires KeyStep(v, top, op, v', top') && Watching(v', id) && id <= top
    ensures Watching(v, id)
  {
  }

  lemma DebtOnDraw(f: FanoutState, frames: seq<Frame>, drawn: map<nat, nat>, acker: nat, id: nat)
    requires FanoutOk(f, frames, drawn) && id in f.viewers && f.viewers[id].tx.open
    ensures var g := Acked(f, acker).fanout;
            && id in g.viewers && Debt(g, g.viewers[id]) <= Debt(f, f.viewers[id])
            && (acker == id && Debt(f, f.viewers[id]) > 0 ==> Debt(g, g.viewers[id]) < Debt(f, f.viewers[id]))
            && (Debt(f, f.viewers[id]) > 0 && Debt(g, g.viewers[id]) == 0 ==> Acked(f, acker).action == Some(Ack))
  {
    assert ViewerOk(f.viewers[id], f, Count(drawn, id));
    if acker in f.viewers {
      assert ViewerOk(f.viewers[acker], f, Count(drawn, acker));
    }
  }

  lemma DebtOtherwise(v: KeyView, op: LocalOp, id: nat)
    requires v.live.Some? && !op.FromNode? && !op.Draw? && v.live.value.nodeAcked <= v.live.value.seqNo
    requires Watching(v, id) && !(op.Join? && op.id == id)
    requires KeyAfter(v, op).live.Some? && id in KeyAfter(v, op).live.value.viewers
    ensures var f, g := v.live.value, KeyAfter(v, op).live.value;
            && Debt(g, g.viewers[id]) <= Debt(f, f.viewers[id])
            && (Debt(f, f.viewers[id]) > 0 && Debt(g, g.viewers[id]) == 0 ==> op.Restart?)
  {
  }

  lemma DebtStep(v: KeyView, top: nat, seed: nat, l: Ledger, op: LocalOp, v': KeyView, top': nat, id: nat)
    requires KeyOk(v, top, seed, l) && KeyStep(v, top, op, v', top') && !op.FromNode?
    requires Watching(v, id) && Watching(v', id) && id <= top
    ensures DebtOf(v', id) <= DebtOf(v, id)
    ensures op == Draw(id) && DebtOf(v, id) > 0 ==> DebtOf(v', id) < DebtOf(v, id)
    ensures DebtOf(v, id) > 0 && DebtOf(v', id) == 0 ==> op.Restart? || KeyAfter(v, op).told == Some(Ack)
  {
    if op.Draw? {
      DebtOnDraw(v.live.value, l.frames, l.drawn, op.id, id);
      assert v'.live == Some(Acked(v.live.value, op.id).fanout);
    } else {
      DebtOtherwise(v, op, id);
    }
  }

  /** How many acks of viewer `id` of key `k` are among operations m .. n. */
  function Draws(ops: seq<Op>, k: Key, id: nat, m: nat, n: nat): nat
    requires m <= n <= |ops|
    decreases n
  {
    if m == n then 0 else Draws(ops, k, id, m, n - 1) + (if ops[n - 1] == ViewerAck(k, id) then 1 else 0)
  }

  ghost predicate NoFrames(ops: seq<Op>, k: Key, m: nat, n: nat)
    requires m <= n <= |ops|
  {
    forall i :: m <= i < n ==> !(ops[i].OnFrame? && ops[i].key == k)
  }

  /** Between frames a viewer's debt falls with each of its acks, whatever anybody else does. */
  lemma DebtFallsOnce(r: Run, k: Key, id: nat, n: nat)
    requires IsRun(r) && n < |r.ops| && !(r.ops[n].OnFrame? && r.ops[n].key == k)
    requires Watching(ViewOf(r.tables[n + 1], k), id) && id <= r.tables[n].top
    ensures Watching(ViewOf(r.tables[n], k), id)
    ensures var before, after := DebtOf(ViewOf(r.tables[n], k), id), DebtOf(ViewOf(r.tables[n + 1], k), id);
            && after <= before
            && (r.ops[n] == ViewerAck(k, id) && before > 0 ==> after < before)
            && (before > 0 && after == 0 ==> At(r.told[n], k) == Some(Ack) || LocalAt(r, k, n) == Restart)
  {
    var t, t', op := r.tables[n], r.tables[n + 1], LocalAt(r, k, n);
    StepOfRun(r, k, n);
    WatchingBefore(ViewOf(t, k), t.top, op, ViewOf(t', k), t'.top, id);
    RunKeepsKeyOk(r, k, n);
    DebtStep(ViewOf(t, k), t.top, r.seed, LedgerAt(r, k, n), op, ViewOf(t', k), t'.top, id);
  }

  /** Between frames a viewer's debt falls with each of its acks, whatever anybody else does. */
  lemma {:induction false} DebtFalls(r: Run, k: Key, id: nat, m: nat, n: nat)
    requires IsRun(r) && m <= n <= |r.ops| && NoFrames(r.ops, k, m, n) && id <= r.tables[m].top
    requires Watching(ViewOf(r.tables[n], k), id)
    ensures Watching(ViewOf(r.tables[m], k), id)
    ensures var before, acks := DebtOf(ViewOf(r.tables[m], k), id), Draws(r.ops, k, id, m, n);
            DebtOf(ViewOf(r.tables[n], k), id) <= (if acks < before then before - acks else 0)
    ensures DebtOf(ViewOf(r.tables[m], k), id) > 0 && DebtOf(ViewOf(r.tables[n], k), id) == 0 ==>
              exists i :: m <= i < n && (At(r.told[i], k) == Some(Ack) || LocalAt(r, k, i) == Restart)
    decreases n
  {
    if m < n {
      TopGrows(r, m, n - 1);
      DebtFallsOnce(r, k, id, n - 1);
      DebtFalls(r, k, id, m, n - 1);
    }
  }

  lemma {:induction false} TopGrows(r: Run, m: nat, n: nat)
    requires IsRun(r) && m <= n <= |r.ops|
    ensures r.tables[m].top <= r.tables[n].top
    decreases n
  {
    if m < n {
      TopGrows(r, m, n - 1);
      assert StepAt(r, n - 1);
    }
  }

  /** Two acks from any one viewer that keeps listening release the node, with no new frame and
      whatever else happens meanwhile; and the node is told so. */
  lemma TwoAcksRelease(r: Run, k: Key, id: nat, m: nat, n: nat)
    requires IsRun(r) && m <= n <= |r.ops| && NoFrames(r.ops, k, m, n) && id <= r.tables[m].top
    requires Watching(ViewOf(r.tables[n], k), id)
    requires Draws(r.ops, k, id, m, n) >= 2
    ensures k in r.tables[m].fanouts && r.tables[n].fanouts[k].nodeAcked == r.tables[n].fanouts[k].seqNo
    ensures r.tables[m].fanouts[k].nodeAcked < r.tables[m].fanouts[k].seqNo ==>
              exists i :: m <= i < n && (At(r.told[i], k) == Some(Ack) || LocalAt(r, k, i) == Restart)
  {
    DebtFalls(r, k, id, m, n);
    RunKeepsKeyOk(r, k, m);
  }

  // ---------- Epochs ----------

  /** Of two Start/Stop messages about a browser the later has the higher epoch; only a Stop that
      answers a straggler frame may repeat the newest epoch. */
  lemma EpochsInOrder(r: Run, k: Key, n: nat, i: nat, j: nat)
    requires IsRun(r) && n <= |r.ops|
    requires i < j < |LedgerAt(r, k, n).told|
    requires var told := LedgerAt(r, k, n).told; Epochal(told[i].action) && Epochal(told[j].action)
    ensures var a, b := LedgerAt(r, k, n).told[i], LedgerAt(r, k, n).told[j];
            && a.action.epoch <= b.action.epoch
            && (b.action.Start? || b.cause != FromStraggler ==> a.action.epoch < b.action.epoch)
  {
    RunKeepsKeyOk(r, k, n);
    var told := LedgerAt(r, k, n).told;
    assert InOrder(told[i], told[j]) && Shaped(told[j], r.seed, |LedgerAt(r, k, n).frames|);
  }

  /** A live key is never among the remembered epochs, and none of those is ahead of the clock. */
  lemma RememberedEpochs(r: Run, k: Key, n: nat)
    requires IsRun(r) && n <= |r.ops| && k in r.tables[n].lastEpochs
    ensures k !in r.tables[n].fanouts && r.tables[n].lastEpochs[k] <= r.tables[n].clock
  {
    RunKeepsKeyOk(r, k, n);
  }

  // ---------- What each viewer gets ----------

  lemma {:induction false} IncreasingPairs(log: seq<ViewerMsg>, i: nat, j: nat)
    requires Increasing(log) && i < j < |log|
    ensures log[i].FrameMsg? && log[j].FrameMsg? && log[i].stamped.num < log[j].stamped.num
  {
    var rest := log[..|log| - 1];
    if j < |rest| {
      IncreasingPairs(rest, i, j);
    } else if i < |rest| - 1 {
      IncreasingPairs(rest, i, |rest| - 1);
    }
  }

  lemma {:induction false} GenuineAt(log: seq<ViewerMsg>, base: int, frames: seq<Frame>, i: nat)
    requires Genuine(log, base, frames) && i < |log| && log[i].FrameMsg?
    ensures 0 < base + log[i].stamped.num <= |frames| && log[i].stamped.frame == frames[base + log[i].stamped.num - 1]
  {
    if i < |log| - 1 {
      GenuineAt(log[..|log| - 1], base, frames, i);
    }
  }

  /** Viewer `id` was sent a subsequence of the node's frames, in order: with `where`, message i is
      the node's frame number where[i] (counting from 0), and where is strictly increasing. */
  ghost predicate Subsequence(log: seq<ViewerMsg>, frames: seq<Frame>, where: seq<int>) {
    && |where| == |log|
    && (forall i :: 0 <= i < |log| ==>
          0 <= where[i] < |frames| && log[i].FrameMsg? && log[i].stamped.frame == frames[where[i]])
    && (forall i, j :: 0 <= i < j < |log| ==> where[i] < where[j])
  }

  lemma LogIsSubsequence(log: seq<ViewerMsg>, base: int, frames: seq<Frame>) returns (where: seq<int>)
    requires Increasing(log) && Genuine(log, base, frames)
    ensures Subsequence(log, frames, where)
  {
    AllFrames(log);
    where := seq(|log|, i requires 0 <= i < |log| => base + log[i].stamped.num - 1);
    forall i | 0 <= i < |log|
      ensures 0 <= where[i] < |frames| && log[i].FrameMsg? && log[i].stamped.frame == frames[where[i]]
    {
      GenuineAt(log, base, frames, i);
    }
    forall i, j | 0 <= i < j < |log|
      ensures where[i] < where[j]
    {
      IncreasingPairs(log, i, j);
    }
  }

  lemma {:induction false} AllFrames(log: seq<ViewerMsg>)
    requires Increasing(log)
    ensures forall i :: 0 <= i < |log| ==> log[i].FrameMsg?
  {
    if log != [] {
      AllFrames(log[..|log| - 1]);
      assert forall i :: 0 <= i < |log| - 1 ==> log[i] == log[..|log| - 1][i];
    }
  }

  /** A viewer that is still attached: frames only, each later than the one before and each as the
      node sent it; one more frame than acks exactly while it waits; the slot holds the newest frame. */
  lemma AttachedViewer(r: Run, k: Key, n: nat, id: nat) returns (where: seq<int>)
    requires IsRun(r) && n <= |r.ops| && k in r.tables[n].fanouts && id in r.tables[n].fanouts[k].viewers
    ensures var f, l := r.tables[n].fanouts[k], LedgerAt(r, k, n);
            var v := f.viewers[id];
            && Subsequence(v.tx.log, l.frames, where)
            && |v.tx.log| == Count(l.drawn, id) + (if v.waiting then 1 else 0)
            && (v.slot.Some? ==> v.waiting && l.frames != [] && v.slot.value.frame == l.frames[|l.frames| - 1]
                                 && v.tx.log != [] && v.tx.log[|v.tx.log| - 1].FrameMsg?
                                 && v.tx.log[|v.tx.log| - 1].stamped.num < v.slot.value.num)
            && id !in l.parted
  {
    RunKeepsKeyOk(r, k, n);
    var f, l := r.tables[n].fanouts[k], LedgerAt(r, k, n);
    assert ViewerOk(f.viewers[id], f, Count(l.drawn, id)) && Genuine(f.viewers[id].tx.log, Base(l.frames, f), l.frames);
    where := LogIsSubsequence(f.viewers[id].tx.log, Base(l.frames, f), l.frames);
  }

  /** A viewer that is gone: frames as above, then at most one `Destroyed`, last of all; and its
      number never comes back. */
  lemma DetachedViewer(r: Run, k: Key, n: nat, id: nat) returns (where: seq<int>)
    requires IsRun(r) && n <= |r.ops| && id in LedgerAt(r, k, n).parted
    ensures var l := LedgerAt(r, k, n);
            var log := l.parted[id].tx.log;
            var sent := if log != [] && log[|log| - 1] == Destroyed then log[..|log| - 1] else log;
            Subsequence(sent, l.frames, where)
    ensures k in r.tables[n].fanouts ==> id !in r.tables[n].fanouts[k].viewers
  {
    RunKeepsKeyOk(r, k, n);
    var l := LedgerAt(r, k, n);
    var p := l.parted[id];
    var log := p.tx.log;
    assert PartedOk(p, l.frames);
    if log != [] && log[|log| - 1] == Destroyed {
      assert !Increasing(log);
      where := LogIsSubsequence(log[..|log| - 1], p.base, l.frames);
    } else {
      where := LogIsSubsequence(log, p.base, l.frames);
    }
  }

  lemma PartedKept(v: KeyView, top: nat, op: LocalOp, l: Ledger, id: nat)
    requires NumbersOk(v, top, l.drawn, l.parted) && id in l.parted
    ensures var after := PartedAfter(l.parted, l.frames, v, KeyAfter(v, op));
            id in after && after[id] == l.parted[id]
  {
  }

  lemma PartedOneMore(r: Run, k: Key, n: nat, id: nat)
    requires IsRun(r) && 0 < n <= |r.ops| && id in LedgerAt(r, k, n - 1).parted
    ensures id in LedgerAt(r, k, n).parted && LedgerAt(r, k, n).parted[id] == LedgerAt(r, k, n - 1).parted[id]
  {
    RunKeepsKeyOk(r, k, n - 1);
    LedgerIs(r, k, n);
    PartedKept(ViewOf(r.tables[n - 1], k), r.tables[n - 1].top, LocalAt(r, k, n - 1), LedgerAt(r, k, n - 1), id);
  }

  /** A channel that parted gets nothing more: what it was sent never changes. */
  lemma {:induction false} PartedForGood(r: Run, k: Key, m: nat, n: nat, id: nat)
    requires IsRun(r) && m <= n <= |r.ops| && id in LedgerAt(r, k, m).parted
    ensures id in LedgerAt(r, k, n).parted && LedgerAt(r, k, n).parted[id] == LedgerAt(r, k, m).parted[id]
    decreases n
  {
    if m < n {
      PartedForGood(r, k, m, n - 1, id);
      PartedOneMore(r, k, n, id);
    }
  }

  // ---------- Acks to the node ----------

  function AckCount(told: seq<Entry>): nat {
    if told == [] then 0 else AckCount(told[..|told| - 1]) + (if told[|told| - 1].action.Ack? then 1 else 0)
  }

  /** The acked frames are different and numbered 1 .. bound, so there are at most `bound` acks. */
  lemma {:induction false} AcksWithin(told: seq<Entry>, seed: nat, frames: nat, bound: int)
    requires Ordered(told) && AllShaped(told, seed, frames) && 0 <= bound
    requires forall i :: 0 <= i < |told| && told[i].cause == FromAck ==> told[i].frame <= bound
    ensures AckCount(told) <= bound
  {
    if told != [] {
      var rest, last := told[..|told| - 1], told[|told| - 1];
      if last.action.Ack? {
        forall i | 0 <= i < |rest| && rest[i].cause == FromAck
          ensures rest[i].frame <= last.frame - 1
        {
          assert InOrder(told[i], told[|told| - 1]);
        }
        assert Shaped(told[|told| - 1], seed, frames);
        AcksWithin(rest, seed, frames, last.frame - 1);
      } else {
        AcksWithin(rest, seed, frames, bound);
      }
    }
  }

  /** The node gets at most one ack for each frame it sent, never for a frame it did not send. */
  lemma AckAccounting(r: Run, k: Key, n: nat)
    requires IsRun(r) && n <= |r.ops|
    ensures var l := LedgerAt(r, k, n);
            && AckCount(l.told) <= |l.frames|
            && (forall i :: 0 <= i < |l.told| && l.told[i].action.Ack? ==> 0 < l.told[i].frame <= |l.frames|)
            && (forall i, j :: 0 <= i < j < |l.told| && l.told[i].action.Ack? && l.told[j].action.Ack? ==>
                  l.told[i].frame < l.told[j].frame)
    ensures k in r.tables[n].fanouts ==> r.tables[n].fanouts[k].nodeAcked <= r.tables[n].fanouts[k].seqNo
  {
    RunKeepsKeyOk(r, k, n);
    var l := LedgerAt(r, k, n);
    forall i | 0 <= i < |l.told| && l.told[i].action.Ack?
      ensures 0 < l.told[i].frame <= |l.frames| && l.told[i].cause == FromAck
    {
      assert Shaped(l.told[i], r.seed, |l.frames|);
    }
    forall i | 0 <= i < |l.told| && l.told[i].cause == FromAck
      ensures l.told[i].frame <= |l.frames|
    {
      assert Shaped(l.told[i], r.seed, |l.frames|);
    }
    forall i, j | 0 <= i < j < |l.told| && l.told[i].action.Ack? && l.told[j].action.Ack?
      ensures l.told[i].frame < l.told[j].frame
    {
      assert InOrder(l.told[i], l.told[j]);
    }
    AcksWithin(l.told, r.seed, |l.frames|, |l.frames|);
  }

  /** After the restart of a resync, every ack is for a frame that came after it. */
  lemma NoStaleAckAfterResync(r: Run, k: Key, n: nat, i: nat, j: nat)
    requires IsRun(r) && n <= |r.ops| && i < j < |LedgerAt(r, k, n).told|
    requires LedgerAt(r, k, n).told[i].cause == FromResync && LedgerAt(r, k, n).told[j].action.Ack?
    ensures LedgerAt(r, k, n).told[i].frame < LedgerAt(r, k, n).told[j].frame
  {
    RunKeepsKeyOk(r, k, n);
    var l := LedgerAt(r, k, n);
    assert Shaped(l.told[j], r.seed, |l.frames|) && InOrder(l.told[i], l.told[j]);
  }

  // ---------- Wanted is running ----------

  /** Every live fan-out runs the pointwise maximum of what its viewers asked for, and that is what
      the newest Start/Stop said; when the last viewer has left, the newest one is a Stop. */
  lemma WantedIsRunning(r: Run, k: Key, n: nat)
    requires IsRun(r) && n <= |r.ops|
    ensures k in r.tables[n].fanouts ==>
              var f := r.tables[n].fanouts[k];
              && f.viewers != map[] && f.started.Some? && IsWanted(f.viewers, f.started)
              && NewestIsStart(LedgerAt(r, k, n).told, f.started.value, f.epoch)
    ensures k in r.tables[n].lastEpochs ==> NewestIsStop(LedgerAt(r, k, n).told, r.tables[n].lastEpochs[k])
  {
    RunKeepsKeyOk(r, k, n);
    if k in r.tables[n].fanouts {
      WantedIsMax(r.tables[n].fanouts[k].viewers);
    }
  }

  ghost function WantedIn(t: Table, k: Key): Option<Params> {
    WantedAt(At(t.fanouts, k))
  }

  ghost function WantedAt(live: Option<FanoutState>): Option<Params> {
    if live.Some? then Wanted(live.value.viewers) else None
  }

  lemma ToldOnChange(v: KeyView, op: LocalOp)
    requires v.live.Some? ==> Settled(v.live.value)
    requires op.Idle? || op.Join? || op.Leave? || op.Adjust?
    ensures var before, after, told := WantedAt(v.live), WantedAt(KeyAfter(v, op).live), KeyAfter(v, op).told;
            && (told.Some? <==> before != after)
            && (told.Some? ==> !told.value.Ack? && after == if told.value.Start? then Some(told.value.params) else None)
  {
  }

  /** Joining, leaving and changing parameters tell the node something exactly when the maximum
      changed, and then say what it is now. */
  lemma ToldExactlyOnChange(r: Run, k: Key, n: nat)
    requires IsRun(r) && n < |r.ops|
    requires r.ops[n].AddViewer? || r.ops[n].RemoveViewer? || r.ops[n].SetParams?
    ensures var before, after := WantedIn(r.tables[n], k), WantedIn(r.tables[n + 1], k);
            var told: Option<NodeAction> := At(r.told[n], k);
            && (told.Some? <==> before != after)
            && (told.Some? ==> !told.value.Ack? && after == if told.value.Start? then Some(told.value.params) else None)
  {
    RunKeepsKeyOk(r, k, n);
    ToldOnChange(ViewOf(r.tables[n], k), LocalAt(r, k, n));
    StepOfRun(r, k, n);
  }

  lemma LiveIsSettled(r: Run, k: Key, n: nat)
    requires IsRun(r) && n <= |r.ops| && k in r.tables[n].fanouts
    ensures Settled(r.tables[n].fanouts[k]) && WantedIn(r.tables[n], k).Some?
  {
    RunKeepsKeyOk(r, k, n);
    WantedIsMax(r.tables[n].fanouts[k].viewers);
  }

  /** A resync restarts every browser that survived with what its viewers want, and nobody else. */
  lemma ResyncStartsSurvivors(r: Run, k: Key, n: nat)
    requires IsRun(r) && n < |r.ops| && r.ops[n].ResyncMachine?
    ensures var survived := k in r.tables[n].fanouts && k.machine == r.ops[n].machine && k.browser in r.ops[n].present;
            && (survived ==> k in r.tables[n + 1].fanouts && WantedIn(r.tables[n], k).Some?
                             && At(r.told[n], k) ==
                                  Some(Start(WantedIn(r.tables[n], k).value, r.tables[n].fanouts[k].epoch + 1)))
            && (!survived ==> At(r.told[n], k).None?)
  {
    if k in r.tables[n].fanouts {
      LiveIsSettled(r, k, n);
    }
    StepOfRun(r, k, n);
  }
}
