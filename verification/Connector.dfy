/**
  When the managed connector is restarted, and after what delay (crates/hub/src/cloud_connector.rs):
  three fields stand for the whole history of probes and restarts.
*/
module Connector {
  import opened Wrappers
  import opened Numbers

  datatype Health = Connected | TunnelUnavailable | OriginUnavailable

  /** Durations in nanoseconds. */
  datatype Policy = Policy(failures: nat, initial: nat, max: nat, stableFor: nat)

  const DURATION_MAX: nat := 0xffff_ffff_ffff_ffff * 1_000_000_000 + 999_999_999

  predicate Representable(p: Policy) {
    p.initial <= DURATION_MAX && p.max <= DURATION_MAX && p.stableFor <= DURATION_MAX
  }

  datatype Event = Observed(health: Health, at: nat) | Restarted

  function SaturatingMul(d: nat, n: nat): nat { Min(d * n, DURATION_MAX) }

  /** The time since `since`; 0 if that lies ahead. */
  function DurationSince(now: nat, since: nat): nat { if now > since then now - since else 0 }

  predicate Down(e: Event) { e.Observed? && e.health == TunnelUnavailable }

  predicate Up(e: Event) { e.Observed? && e.health == Connected }

  /** How many events at the end were TunnelUnavailable. */
  function Failures(h: seq<Event>): nat
    decreases |h|
  {
    if h == [] || !Down(h[|h| - 1]) then 0 else Failures(h[..|h| - 1]) + 1
  }

  /** When the Connected stretch at the end began. */
  function HealthySince(h: seq<Event>): Option<nat>
    decreases |h|
  {
    if h == [] || !Up(h[|h| - 1]) then None
    else Some(HealthySince(h[..|h| - 1]).GetOr(h[|h| - 1].at))
  }

  /** The last event completes a Connected stretch of `stableFor`. */
  predicate Stable(p: Policy, h: seq<Event>) {
    h != [] && Up(h[|h| - 1]) && DurationSince(h[|h| - 1].at, HealthySince(h).GetOr(h[|h| - 1].at)) >= p.stableFor
  }

  /** Restarts since the connection was last stable. */
  function Restarts(p: Policy, h: seq<Event>): nat
    decreases |h|
  {
    if h == [] || Stable(p, h) then 0
    else Restarts(p, h[..|h| - 1]) + if h[|h| - 1].Restarted? then 1 else 0
  }

  /** The delay after `restarts` restarts. */
  function Backoff(p: Policy, restarts: nat): nat {
    if restarts == 0 then p.initial else Min(p.initial * Pow2(restarts), p.max)
  }

  /** The last `n` events are observations, all TunnelUnavailable; so since the last restart. */
  ghost predicate LastAllDown(h: seq<Event>, n: nat) {
    n <= |h| && forall i :: |h| - n <= i < |h| ==> Down(h[i])
  }

  /** Events `s..` are one Connected stretch, and no longer one ends there. */
  ghost predicate Stretch(h: seq<Event>, s: int) {
    0 <= s < |h| && (forall i :: s <= i < |h| ==> Up(h[i])) && (s > 0 ==> !Up(h[s - 1]))
  }

  lemma {:induction false} FailuresIs(h: seq<Event>, n: nat)
    ensures n <= Failures(h) <==> LastAllDown(h, n)
    decreases |h|
  {
    if h != [] && n > 0 {
      var before := h[..|h| - 1];
      FailuresIs(before, n - 1);
      if LastAllDown(before, n - 1) && Down(h[|h| - 1]) {
        forall i | |h| - n <= i < |h| ensures Down(h[i]) {
          assert i < |before| ==> h[i] == before[i];
        }
      }
      if LastAllDown(h, n) {
        assert Down(h[|h| - 1]);
        forall i | |before| - (n - 1) <= i < |before| ensures Down(before[i]) {
          assert before[i] == h[i];
        }
      }
    }
  }

  lemma OneStretch(h: seq<Event>, s: int, t: int)
    requires Stretch(h, s) && Stretch(h, t)
    ensures s == t
  {
  }

  lemma StretchGrows(h: seq<Event>, s: int)
    requires h != [] && Up(h[|h| - 1]) && Stretch(h[..|h| - 1], s)
    ensures Stretch(h, s)
  {
    var before := h[..|h| - 1];
    forall i | s <= i < |h| ensures Up(h[i]) {
      if i < |before| {
        assert before[i] == h[i];
      }
    }
  }

  lemma {:induction false} HealthySinceIs(h: seq<Event>) returns (s: int)
    ensures HealthySince(h) == None <==> h == [] || !Up(h[|h| - 1])
    ensures HealthySince(h).Some? ==> Stretch(h, s) && HealthySince(h) == Some(h[s].at)
    decreases |h|
  {
    s := |h| - 1;
    if h != [] && Up(h[s]) && s > 0 && Up(h[s - 1]) {
      s := HealthySinceIs(h[..|h| - 1]);
      StretchGrows(h, s);
    }
  }

  lemma BackoffDoubles(p: Policy, restarts: nat)
    requires Representable(p)
    ensures Min(SaturatingMul(Backoff(p, restarts), 2), p.max) == Backoff(p, restarts + 1)
  {
    assert p.initial * Pow2(restarts + 1) == 2 * (p.initial * Pow2(restarts));
  }

  /** What one more event does to each of the three readings of a history. */
  lemma OneMore(p: Policy, h: seq<Event>, e: Event)
    ensures Failures(h + [e]) == if Down(e) then Failures(h) + 1 else 0
    ensures HealthySince(h + [e]) == if Up(e) then Some(HealthySince(h).GetOr(e.at)) else None
    ensures Stable(p, h + [e]) <==> Up(e) && DurationSince(e.at, HealthySince(h).GetOr(e.at)) >= p.stableFor
    ensures Restarts(p, h + [e]) ==
            if Stable(p, h + [e]) then 0 else Restarts(p, h) + if e.Restarted? then 1 else 0
  {
    assert (h + [e])[..|h|] == h;
  }

  class Recovery {
    ghost const policy: Policy
    ghost var history: seq<Event>
    var failures: nat
    var healthySince: Option<nat>
    var backoff: nat

    /** The fields are what the history makes them. */
    ghost predicate Valid()
      reads this
    {
      && Representable(policy)
      && failures == Failures(history)
      && healthySince == HealthySince(history)
      && backoff == Backoff(policy, Restarts(policy, history))
    }

    constructor (p: Policy)
      requires Representable(p)
      ensures Valid() && policy == p && history == []
    {
      policy, history := p, [];
      failures, healthySince, backoff := 0, None, p.initial;
    }

    /** True exactly when the last `failures` events are TunnelUnavailable observations. */
    method Observe(health: Health, now: nat, p: Policy) returns (restart: bool)
      requires Valid() && p == policy
      modifies this
      ensures Valid() && history == old(history) + [Observed(health, now)]
      ensures restart <==> LastAllDown(history, policy.failures)
    {
      OneMore(policy, history, Observed(health, now));
      history := history + [Observed(health, now)];
      match health {
        case Connected =>
          failures := 0;
          if healthySince == None {
            healthySince := Some(now);
          }
          if DurationSince(now, healthySince.value) >= p.stableFor {
            backoff := p.initial;
          }
        case TunnelUnavailable =>
          healthySince := None;
          failures := failures + 1;
        case OriginUnavailable =>
          healthySince := None;
          failures := 0;
      }
      FailuresIs(history, policy.failures);
      restart := failures >= p.failures;
    }

    method RestartDelay(p: Policy) returns (delay: nat)
      requires Valid() && p == policy
      modifies this
      ensures Valid() && history == old(history) + [Restarted]
      ensures delay == Backoff(policy, Restarts(policy, old(history)))
    {
      OneMore(policy, history, Restarted);
      BackoffDoubles(policy, Restarts(policy, history));
      history := history + [Restarted];
      failures, healthySince := 0, None;
      delay := backoff;
      backoff := Min(SaturatingMul(backoff, 2), p.max);
    }
  }

  /** The delay is the promised `min(initial * 2^k, max)` exactly when there was a restart since the
      connection was last stable, or the initial backoff is within the maximum. */
  lemma DelayIsCappedIff(p: Policy, h: seq<Event>)
    ensures var k := Restarts(p, h);
            Backoff(p, k) == Min(p.initial * Pow2(k), p.max) <==> k > 0 || p.initial <= p.max
  {
  }

  ghost predicate StableAt(p: Policy, h: seq<Event>, i: int) { 0 <= i < |h| && Stable(p, h[..i + 1]) }

  function CountRestarts(h: seq<Event>): nat
    decreases |h|
  {
    if h == [] then 0 else CountRestarts(h[..|h| - 1]) + if h[|h| - 1].Restarted? then 1 else 0
  }

  /** `k` counts the restarts since the connection was last stable, or since the start. */
  lemma {:induction false} RestartsSinceStable(p: Policy, h: seq<Event>, n: nat)
    requires n <= |h| && (n == 0 || StableAt(p, h, n - 1))
    requires forall i :: n <= i < |h| ==> !StableAt(p, h, i)
    ensures Restarts(p, h) == CountRestarts(h[n..])
    decreases |h|
  {
    if n == |h| {
      assert h[..n] == h;
    } else {
      var before := h[..|h| - 1];
      forall i | 0 <= i < |before| ensures StableAt(p, before, i) == StableAt(p, h, i) {
        assert before[..i + 1] == h[..i + 1];
      }
      RestartsSinceStable(p, before, n);
      assert h[..|h| - 1 + 1] == h && !StableAt(p, h, |h| - 1);
      assert h[n..][..|h[n..]| - 1] == before[n..];
    }
  }

  /** What stable means: the whole stretch at the end, unbroken, from its first probe to its last. */
  lemma StableIs(p: Policy, h: seq<Event>)
    ensures Stable(p, h) <==> exists s: int :: Stretch(h, s) && DurationSince(h[|h| - 1].at, h[s].at) >= p.stableFor
  {
    var since := HealthySinceIs(h);
    forall s | Stretch(h, s) ensures HealthySince(h).Some? && s == since {
      assert Up(h[|h| - 1]);
      OneStretch(h, s, since);
    }
  }
}
