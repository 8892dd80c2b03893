/** When an event log stays numbered although updates are interrupted and old states are purged. */
module WebhookFaults {
  import opened Wrappers
  import opened Webhooks
  import opened WebhookLog

  ghost predicate IsHistory(logs: seq<Log>, ops: seq<Op>) {
    && |logs| == |ops| + 1
    && logs[0] == EMPTY_LOG
    && forall i :: 0 <= i < |ops| ==> (ops[i].Forget? ==> MayForget(logs[i])) && logs[i + 1] == After(logs[i], ops[i])
  }

  /** The saved state fell behind what was told: an update queued something and then failed, or the
      purge forgot the run. */
  ghost predicate FallsBehind(logs: seq<Log>, ops: seq<Op>, i: int)
    requires IsHistory(logs, ops)
  {
    0 <= i < |ops| && (ops[i].Forget? || (ops[i].fault.Cut? && logs[i + 1].told != logs[i].told))
  }

  ghost predicate TellsMore(logs: seq<Log>, i: int) { 0 <= i < |logs| - 1 && logs[i + 1].told != logs[i].told }

  lemma {:induction false} ToldOnlyGrows(logs: seq<Log>, ops: seq<Op>, m: nat, n: nat)
    requires IsHistory(logs, ops) && m <= n <= |ops|
    ensures logs[m].told <= logs[n].told
    decreases n
  {
    if m < n {
      ToldOnlyGrows(logs, ops, m, n - 1);
      assert logs[n] == After(logs[n - 1], ops[n - 1]);
    }
  }

  /** The saved number never passes what was told, and once behind it stays behind. */
  lemma {:induction false} SavedNumber(logs: seq<Log>, ops: seq<Op>, n: nat)
    requires IsHistory(logs, ops) && n <= |ops|
    ensures LastNo(logs[n].saved) <= |logs[n].told|
    ensures logs[n].saved.Some? ==> logs[n].saved.value.last > 0
    ensures LastNo(logs[n].saved) < |logs[n].told| <==> exists i :: i < n && FallsBehind(logs, ops, i)
    decreases n
  {
    if n > 0 {
      var log, op := logs[n - 1], ops[n - 1];
      SavedNumber(logs, ops, n - 1);
      assert logs[n] == After(log, op);
      if op.Update? {
        ToldIs(log.saved, op.run);
        assert log.saved == None ==> Started in Told(log.saved, op.run);
      }
      assert FallsBehind(logs, ops, n - 1) <==> op.Forget? || (op.fault.Cut? && logs[n].told != log.told);
      if exists i :: i < n - 1 && FallsBehind(logs, ops, i) {
        var i :| i < n - 1 && FallsBehind(logs, ops, i);
        assert i < n;
      }
    }
  }

  /** Telling more while behind repeats a number, for good. */
  lemma BehindRepeats(logs: seq<Log>, ops: seq<Op>, n: nat, i: nat, j: nat)
    requires IsHistory(logs, ops) && n <= |ops| && i < j < n
    requires FallsBehind(logs, ops, i) && TellsMore(logs, j)
    ensures !WellNumbered(logs[n].told)
  {
    SavedNumber(logs, ops, j);
    ToldOnlyGrows(logs, ops, j + 1, n);
    assert logs[j + 1] == After(logs[j], ops[j]);
    var k := |logs[j].told|;
    assert logs[j + 1].told[k].no == LastNo(logs[j].saved) + 1 <= k;
    assert logs[n].told[k] == logs[j + 1].told[k];
  }

  /** Exactly when the numbers are 1..n: nothing was told after an update that queued something and
      failed before saving, or after the purge. */
  lemma {:induction false} NumberedIff(logs: seq<Log>, ops: seq<Op>, n: nat)
    requires IsHistory(logs, ops) && n <= |ops|
    ensures WellNumbered(logs[n].told) <==>
            !exists i, j :: 0 <= i < j < n && FallsBehind(logs, ops, i) && TellsMore(logs, j)
    decreases n
  {
    if exists i, j :: 0 <= i < j < n && FallsBehind(logs, ops, i) && TellsMore(logs, j) {
      var i, j :| 0 <= i < j < n && FallsBehind(logs, ops, i) && TellsMore(logs, j);
      BehindRepeats(logs, ops, n, i, j);
    } else if n > 0 {
      NumberedIff(logs, ops, n - 1);
      SavedNumber(logs, ops, n - 1);
      assert logs[n] == After(logs[n - 1], ops[n - 1]);
      if exists i :: i < n - 1 && FallsBehind(logs, ops, i) {
        var i :| i < n - 1 && FallsBehind(logs, ops, i);
        assert !TellsMore(logs, n - 1);
      }
    }
  }

  /** A run that ended, was forgotten a week later and changes once more starts over at 1. */
  lemma ForgottenStartsOver(run: RunInfo)
    requires run.ended
    ensures var ended := AfterUpdate(EMPTY_LOG, run, Fine);
            && MayForget(ended)
            && var again := AfterUpdate(After(ended, Forget), run, Fine);
               again.told == ended.told + ended.told && !WellNumbered(again.told)
  {
    FirstTold(run);
    var ended := AfterUpdate(EMPTY_LOG, run, Fine);
    var again := AfterUpdate(After(ended, Forget), run, Fine);
    assert ended.told == EntriesOf(None, run);
    assert again.told[|ended.told|] == Entry(1, Started);
  }
}
