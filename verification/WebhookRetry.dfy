/**
  Retrying a webhook delivery (crates/hub/src/webhooks.rs, crates/hub/src/db/integrations.rs): backing
  off from 5 s to an hour, for a day.
*/
module WebhookRetry {
  import opened Wrappers
  import opened Numbers

  const GIVE_UP_MS: int := 24 * 3600 * 1000
  const FIRST_RETRY_MS: int := 5_000
  const MAX_RETRY_MS: int := 3600 * 1000
  const I64_MAX: int := 0x7fff_ffff_ffff_ffff

  function SaturatingMul(a: nat, b: nat): nat { if a * b > I64_MAX then I64_MAX else a * b }

  function Delay(attempts: int): int {
    Min(SaturatingMul(FIRST_RETRY_MS, Pow2(Clamp(attempts, 0, 20))), MAX_RETRY_MS)
  }

  /** When to try again after a failure known at `now`; None: given up. */
  function RetryAt(createdAt: int, attempts: int, now: int): Option<int> {
    if now - createdAt >= GIVE_UP_MS then None else Some(now + Delay(attempts))
  }

  /** The outbox row, and whether it is marked delivered or failed. */
  datatype Row = Row(createdAt: int, attempts: nat, nextAt: int, delivered: bool, failed: bool)

  predicate Over(r: Row) { r.delivered || r.failed }

  /** When the worker found the row due, when the outcome was known, and whether that was recorded. */
  datatype Attempt = Attempt(due: int, known: int, ok: bool, recorded: bool)

  function NewRow(createdAt: int): Row { Row(createdAt, 0, createdAt, false, false) }

  function RowAfter(r: Row, a: Attempt): Row {
    if !a.recorded then r
    else if a.ok then r.(attempts := r.attempts + 1, delivered := true)
    else
      match RetryAt(r.createdAt, r.attempts, a.known)
      case Some(at) => r.(attempts := r.attempts + 1, nextAt := at)
      case None => r.(attempts := r.attempts + 1, failed := true)
  }

  class Delivery {
    const createdAt: int
    var attempts: nat
    var nextAt: int
    var delivered: bool
    var failed: bool

    function State(): Row
      reads this
    {
      Row(createdAt, attempts, nextAt, delivered, failed)
    }

    constructor (now: int)
      ensures State() == NewRow(now)
    {
      createdAt, attempts, nextAt, delivered, failed := now, 0, now, false, false;
    }

    method MarkDelivered()
      modifies this
      ensures State() == old(State()).(attempts := old(attempts) + 1, delivered := true)
    {
      delivered, attempts := true, attempts + 1;
    }

    method MarkFailed(retry: Option<int>)
      modifies this
      ensures State() == match retry
                         case Some(at) => old(State()).(attempts := old(attempts) + 1, nextAt := at)
                         case None => old(State()).(attempts := old(attempts) + 1, failed := true)
    {
      attempts := attempts + 1;
      match retry
      case Some(at) => nextAt := at;
      case None => failed := true;
    }

    /** One attempt, once it is due. */
    method Attempted(a: Attempt)
      modifies this
      ensures State() == RowAfter(old(State()), a)
    {
      if !a.recorded {
        return;
      }
      if a.ok {
        MarkDelivered();
      } else {
        var retry := RetryAt(createdAt, attempts, a.known);
        MarkFailed(retry);
      }
    }
  }

  function AfterAll(createdAt: int, attempts: seq<Attempt>): Row
    decreases |attempts|
  {
    if attempts == [] then NewRow(createdAt)
    else RowAfter(AfterAll(createdAt, attempts[..|attempts| - 1]), attempts[|attempts| - 1])
  }

  /** Only what is due is attempted. The clock may step back between finding it due and knowing its
      outcome, as a wall clock may. */
  ghost predicate IsHistory(createdAt: int, attempts: seq<Attempt>)
    decreases |attempts|
  {
    attempts != [] ==>
      var before := attempts[..|attempts| - 1];
      var last := attempts[|attempts| - 1];
      && IsHistory(createdAt, before)
      && !Over(AfterAll(createdAt, before))
      && AfterAll(createdAt, before).nextAt <= last.due
  }

  /** What is delivered is not sent again: no attempt follows one that worked and was recorded. */
  lemma {:induction false} DeliveredIsLast(createdAt: int, attempts: seq<Attempt>)
    requires IsHistory(createdAt, attempts)
    ensures forall i :: 0 <= i < |attempts| - 1 ==> !(attempts[i].ok && attempts[i].recorded)
    decreases |attempts|
  {
    if attempts != [] {
      var before := attempts[..|attempts| - 1];
      DeliveredIsLast(createdAt, before);
      if before != [] {
        EndsIff(createdAt, before);
      }
      forall i | 0 <= i < |attempts| - 1 ensures !(attempts[i].ok && attempts[i].recorded) {
        assert attempts[i] == before[i];
      }
    }
  }

  /** A row is delivered exactly when its last attempt worked and was recorded, and failed for good exactly
      when that attempt failed, was recorded, and was known a day or more after the row was made. */
  lemma {:induction false} EndsIff(createdAt: int, attempts: seq<Attempt>)
    requires IsHistory(createdAt, attempts)
    ensures var r := AfterAll(createdAt, attempts);
            && r.createdAt == createdAt
            && (r.delivered <==> attempts != [] && attempts[|attempts| - 1].recorded && attempts[|attempts| - 1].ok)
            && (r.failed <==> attempts != [] && attempts[|attempts| - 1].recorded && !attempts[|attempts| - 1].ok
                              && attempts[|attempts| - 1].known - createdAt >= GIVE_UP_MS)
    decreases |attempts|
  {
    if attempts != [] {
      EndsIff(createdAt, attempts[..|attempts| - 1]);
    }
  }

  /** Attempt `i` was recorded, and none after it was. */
  ghost predicate LastRecorded(attempts: seq<Attempt>, i: int) {
    0 <= i < |attempts| && attempts[i].recorded && forall j :: i < j < |attempts| ==> !attempts[j].recorded
  }

  /** When a row is tried next: at once until an attempt is recorded, and then as long after the last one
      recorded as the number of those before it makes it. */
  lemma {:induction false} NextIs(createdAt: int, attempts: seq<Attempt>)
    requires IsHistory(createdAt, attempts) && !Over(AfterAll(createdAt, attempts))
    ensures var r := AfterAll(createdAt, attempts);
            && r.attempts == Recorded(attempts)
            && (r.attempts == 0 ==> r.nextAt == createdAt)
            && forall i :: LastRecorded(attempts, i) ==>
                 r.attempts > 0 && r.nextAt == attempts[i].known + Delay(r.attempts - 1)
    decreases |attempts|
  {
    if attempts != [] {
      var before, last := attempts[..|attempts| - 1], attempts[|attempts| - 1];
      NextIs(createdAt, before);
      forall i | LastRecorded(attempts, i)
        ensures AfterAll(createdAt, attempts).attempts > 0
        ensures AfterAll(createdAt, attempts).nextAt ==
                attempts[i].known + Delay(AfterAll(createdAt, attempts).attempts - 1)
      {
        if i < |before| {
          assert !attempts[|attempts| - 1].recorded;
          assert forall j :: i <= j < |before| ==> before[j] == attempts[j];
          assert LastRecorded(before, i);
        }
      }
    }
  }

  function Recorded(attempts: seq<Attempt>): nat
    decreases |attempts|
  {
    if attempts == [] then 0
    else Recorded(attempts[..|attempts| - 1]) + if attempts[|attempts| - 1].recorded then 1 else 0
  }

  /** How far the clock stepped back during the attempts, together. */
  function SetBack(attempts: seq<Attempt>): nat
    decreases |attempts|
  {
    if attempts == [] then 0
    else
      var last := attempts[|attempts| - 1];
      SetBack(attempts[..|attempts| - 1]) + if last.known < last.due then last.due - last.known else 0
  }

  /** The time the first `n` delays take together. */
  function Delays(n: nat): int { if n == 0 then 0 else Delays(n - 1) + Delay(n - 1) }

  lemma {:induction false} Pow2Grows(m: nat, n: nat)
    requires m <= n
    ensures Pow2(m) <= Pow2(n)
  {
    if m < n {
      Pow2Grows(m, n - 1);
    }
  }

  lemma TenDoublings()
    ensures Pow2(10) == 1024
  {
  }

  /** Doubling from 5 s ten times, then an hour each; nothing saturates. */
  lemma DelayIs(attempts: nat)
    ensures Delay(attempts) == if attempts < 10 then FIRST_RETRY_MS * Pow2(attempts) else MAX_RETRY_MS
  {
    var n := Clamp(attempts, 0, 20);
    Pow2Grows(n, 20);
    assert Pow2(20) == 0x10_0000 && Pow2(10) == 1024 && Pow2(9) == 512;
    assert FIRST_RETRY_MS * Pow2(n) <= FIRST_RETRY_MS * 0x10_0000;
    if attempts < 10 {
      Pow2Grows(attempts, 9);
    } else {
      Pow2Grows(10, n);
    }
  }

  /** While they double, the delays are the last one doubled but for the first. */
  lemma {:induction false} DoublingDelays(n: nat)
    requires n <= 10
    ensures Delays(n) + FIRST_RETRY_MS == FIRST_RETRY_MS * Pow2(n)
  {
    if n > 0 {
      DoublingDelays(n - 1);
      DelayIs(n - 1);
    }
  }

  function Hours(n: nat): int { if n == 0 then 0 else Hours(n - 1) + MAX_RETRY_MS }

  lemma {:induction false} HoursAre(n: nat)
    ensures Hours(n) == n * 3_600_000
  {
    if n > 0 {
      HoursAre(n - 1);
    }
  }

  lemma TenDelays()
    ensures Delays(10) == 5_115_000
  {
    DoublingDelays(10);
    TenDoublings();
  }

  lemma {:induction false} DelaysAre(n: nat)
    requires n >= 10
    ensures Delays(n) == 5_115_000 + Hours(n - 10)
  {
    if n == 10 {
      TenDelays();
    } else {
      DelaysAre(n - 1);
      DelayIs(n - 1);
    }
  }

  lemma EarlyDelays(n: nat)
    requires n <= 10
    ensures Delays(n) <= 5_115_000
  {
    DoublingDelays(n);
    TenDoublings();
    Pow2Grows(n, 10);
  }

  /** How much longer than a day the first 33 delays take. */
  const SLACK_MS: nat := 1_515_000

  /** The day is over after 33 delays, and not earlier. */
  lemma DayIs33Delays(n: nat)
    requires n <= 33
    ensures Delays(n) >= GIVE_UP_MS <==> n == 33
    ensures n == 33 ==> Delays(n) == GIVE_UP_MS + SLACK_MS
  {
    if n < 10 {
      EarlyDelays(n);
    } else {
      DelaysAre(n);
      HoursAre(n - 10);
    }
  }

  lemma {:induction false} DelaysGrow(m: nat, n: nat)
    requires m <= n
    ensures Delays(m) <= Delays(n)
  {
    if m < n {
      DelaysGrow(m, n - 1);
      DelayIs(n - 1);
    }
  }

  /** The next attempt waits for all the delays so far, but for what the clock stepped back, and there
      is only a next one within a day of the creation. */
  lemma {:induction false} AttemptsTakeTime(createdAt: int, attempts: seq<Attempt>)
    requires IsHistory(createdAt, attempts)
    ensures var r := AfterAll(createdAt, attempts);
            && r.createdAt == createdAt && r.attempts == Recorded(attempts)
            && (!Over(r) ==> r.nextAt >= createdAt + Delays(r.attempts) - SetBack(attempts))
            && (!Over(r) && r.attempts >= 1 ==> Delays(r.attempts - 1) < GIVE_UP_MS + SetBack(attempts))
            && (Over(r) && r.attempts >= 2 ==> Delays(r.attempts - 2) < GIVE_UP_MS + SetBack(attempts))
    decreases |attempts|
  {
    if attempts != [] {
      AttemptsTakeTime(createdAt, attempts[..|attempts| - 1]);
    }
  }

  /** Unless the clock steps back by more than 25 minutes and 15 seconds in all, at most 34 attempts are
      recorded, so there are at most 34 and those whose outcome could not be recorded. */
  lemma AtMost34(createdAt: int, attempts: seq<Attempt>)
    requires IsHistory(createdAt, attempts) && SetBack(attempts) <= SLACK_MS
    ensures Recorded(attempts) <= 34
    ensures (forall a <- attempts :: a.recorded) ==> |attempts| <= 34
  {
    AttemptsTakeTime(createdAt, attempts);
    DayIs33Delays(33);
    if Recorded(attempts) > 34 {
      DelaysGrow(33, Recorded(attempts) - 2);
    }
    if forall a <- attempts :: a.recorded {
      AllRecorded(attempts);
    }
  }

  lemma {:induction false} AllRecorded(attempts: seq<Attempt>)
    requires forall a <- attempts :: a.recorded
    ensures Recorded(attempts) == |attempts|
    decreases |attempts|
  {
    if attempts != [] {
      AllRecorded(attempts[..|attempts| - 1]);
    }
  }

  /** Failing at once whenever it is due. */
  function Eager(createdAt: int, n: nat): seq<Attempt> {
    if n == 0 then []
    else
      var at := createdAt + Delays(n - 1);
      Eager(createdAt, n - 1) + [Attempt(at, at, false, true)]
  }

  /** The bound is reached. */
  lemma {:induction false} EagerReaches(createdAt: int, n: nat)
    requires n <= 34
    ensures |Eager(createdAt, n)| == n && IsHistory(createdAt, Eager(createdAt, n))
    ensures var r := AfterAll(createdAt, Eager(createdAt, n));
            && r.createdAt == createdAt && r.attempts == n && (Over(r) <==> n == 34)
            && SetBack(Eager(createdAt, n)) == 0 && Recorded(Eager(createdAt, n)) == n
            && (n < 34 ==> r.nextAt == createdAt + Delays(n))
  {
    if n > 0 {
      EagerReaches(createdAt, n - 1);
      DayIs33Delays(n - 1);
      var all := Eager(createdAt, n);
      assert all[..|all| - 1] == Eager(createdAt, n - 1);
    }
  }

  lemma ThirtyFourHappens(createdAt: int)
    ensures exists attempts: seq<Attempt> ::
            IsHistory(createdAt, attempts) && |attempts| == 34 && forall a <- attempts :: a.recorded
  {
    EagerReaches(createdAt, 34);
    EagerRecords(createdAt, 34);
  }

  lemma {:induction false} EagerRecords(createdAt: int, n: nat)
    ensures forall a <- Eager(createdAt, n) :: a.recorded
  {
    if n > 0 {
      EagerRecords(createdAt, n - 1);
    }
  }

  /** As `Eager`, but the clock steps back by a millisecond more than `SLACK_MS` during the 34th attempt. */
  function SteppedBack(createdAt: int): seq<Attempt> {
    var due := createdAt + Delays(33);
    var known := due - SLACK_MS - 1;
    Eager(createdAt, 33) + [Attempt(due, known, false, true)] +
    [Attempt(known + Delay(33), known + Delay(33), false, true)]
  }

  lemma SteppedBackReaches35(createdAt: int)
    ensures IsHistory(createdAt, SteppedBack(createdAt))
    ensures Recorded(SteppedBack(createdAt)) == 35 && SetBack(SteppedBack(createdAt)) == SLACK_MS + 1
  {
    var due := createdAt + Delays(33);
    var known := due - SLACK_MS - 1;
    var most := Eager(createdAt, 33) + [Attempt(due, known, false, true)];
    EagerReaches(createdAt, 33);
    DayIs33Delays(33);
    DelayIs(33);
    assert most[..|most| - 1] == Eager(createdAt, 33);
    assert IsHistory(createdAt, most);
    assert AfterAll(createdAt, most) == Row(createdAt, 34, known + Delay(33), false, false);
    assert SteppedBack(createdAt)[..|SteppedBack(createdAt)| - 1] == most;
  }

  /** A history in which the clock steps back by no more than `setBack` and 34 is not enough. */
  ghost predicate Exceeds34(createdAt: int, attempts: seq<Attempt>, setBack: nat) {
    IsHistory(createdAt, attempts) && SetBack(attempts) <= setBack && Recorded(attempts) > 34
  }

  lemma MoreHappens(createdAt: int, setBack: nat) returns (attempts: seq<Attempt>)
    requires setBack > SLACK_MS
    ensures Exceeds34(createdAt, attempts, setBack)
  {
    attempts := SteppedBack(createdAt);
    SteppedBackReaches35(createdAt);
  }

  lemma NeverMore(createdAt: int, attempts: seq<Attempt>, setBack: nat)
    requires setBack <= SLACK_MS
    ensures !Exceeds34(createdAt, attempts, setBack)
  {
    if IsHistory(createdAt, attempts) && SetBack(attempts) <= setBack {
      AtMost34(createdAt, attempts);
    }
  }

  /** The bound of 34 holds of every history exactly when the clock may step back by no more than that. */
  lemma AtMost34Iff(setBack: nat)
    ensures (forall createdAt, attempts :: !Exceeds34(createdAt, attempts, setBack)) <==> setBack <= SLACK_MS
  {
    if setBack <= SLACK_MS {
      forall createdAt, attempts ensures !Exceeds34(createdAt, attempts, setBack) {
        NeverMore(createdAt, attempts, setBack);
      }
    } else {
      var attempts := MoreHappens(0, setBack);
    }
  }
}
