/** client/app/groups.py: the attachment record, its failure count and when the watchdog may retry it. */
module Backoff {
  import opened Text
  import opened UsbipClient

  type Id = string

  datatype Action = Docker(name: string) | Systemd(name: string)

  /**
   * An attachment record. `local` is None on records older than that field. Times are whole seconds.
   * `lastFailure` is not stored by the source: it is the time at which `failures` last grew.
   */
  datatype Record = Record(
    server: Id, busid: string, serial: string, title: string, group: Option<Id>, attachedAt: int,
    autoFailover: bool, autoRebind: bool, actions: seq<Action>,
    port: Port, local: Option<string>,
    failures: nat, nextRetry: Option<int>, lastFailure: Option<int>,
    node: Option<StableNode>)

  const THRESHOLD := 3
  const BASE_SECONDS := 60
  const MAX_SECONDS := 1800
  const REBIND_AFTER := 6
  const STARTUP_GRACE := 180

  function Pow2(n: nat): (p: nat)
    ensures p >= 1
  {
    if n == 0 then 1 else 2 * Pow2(n - 1)
  }

  /** The pause after the `count`-th failure in a row. */
  function Delay(count: nat): int
    requires count >= THRESHOLD
  {
    var d := BASE_SECONDS * Pow2(count - THRESHOLD);
    if d < MAX_SECONDS then d else MAX_SECONDS
  }

  /** `_bump` */
  function Bumped(r: Record, now: int): Record {
    var count := r.failures + 1;
    r.(failures := count, lastFailure := Some(now),
       nextRetry := if count >= THRESHOLD then Some(now + Delay(count)) else r.nextRetry)
  }

  /** `_reset` */
  function Cleared(r: Record): Record {
    if r.failures != 0 || r.nextRetry.Some? then r.(failures := 0, nextRetry := None) else r
  }

  /** `_watchdog_should_skip` */
  predicate ShouldSkip(r: Record, now: int) {
    r.nextRetry.Some? && r.nextRetry.value > now
  }

  /** The port is occupied and, when the record says by what, still by that. */
  predicate IsLive(r: Record, live: map<Port, string>) {
    r.port in live && (r.local.None? || r.local.value == live[r.port])
  }

  /** Backing off exactly from the third failure on, until the capped delay after the last one. */
  ghost predicate OnSchedule(r: Record) {
    && (r.nextRetry.Some? <==> r.failures >= THRESHOLD)
    && (r.failures > 0 ==> r.lastFailure.Some?)
    && (r.nextRetry.Some? ==> r.nextRetry.value == r.lastFailure.value + Delay(r.failures))
  }

  lemma FailureKeepsSchedule(r: Record, now: int)
    requires OnSchedule(r)
    ensures OnSchedule(Bumped(r, now)) && OnSchedule(Cleared(r))
  {
  }

  /** A failure adds one to the count and notes the time, a success takes count and retry time away; no other field changes. */
  lemma OnlyTheCountChanges(r: Record, now: int)
    requires OnSchedule(r)
    ensures
      var b := Bumped(r, now);
      && b.failures == r.failures + 1 && b.lastFailure == Some(now)
      && b == r.(failures := b.failures, nextRetry := b.nextRetry, lastFailure := b.lastFailure)
    ensures Cleared(r) == r.(failures := 0, nextRetry := None)
  {
  }

  lemma {:induction false} Pow2Monotone(m: nat, n: nat)
    requires m <= n
    ensures Pow2(m) <= Pow2(n)
  {
    if m < n { Pow2Monotone(m, n - 1); }
  }

  /** The delay never shrinks and stays between one minute and half an hour. */
  lemma DelayIsMonotone(m: nat, n: nat)
    requires THRESHOLD <= m <= n
    ensures 60 <= Delay(m) <= Delay(n) <= 1800
  {
    Pow2Monotone(m - THRESHOLD, n - THRESHOLD);
  }

  lemma DelayValues()
    ensures Delay(3) == 60 && Delay(4) == 120 && Delay(5) == 240 && Delay(6) == 480 && Delay(7) == 960
    ensures forall n: nat :: n >= 8 ==> Delay(n) == 1800
  {
    assert Pow2(5) == 32;
    forall n: nat | n >= 8
      ensures Delay(n) == 1800
    {
      Pow2Monotone(5, n - THRESHOLD);
    }
  }

  // ---------------------------------------- a run of failing watchdog attempts

  /** Watchdog visits to one record at the given times, every attempt failing. */
  function AfterVisits(r: Record, times: seq<int>): Record {
    if times == [] then r
    else
      var before := AfterVisits(r, times[..|times| - 1]);
      var now := times[|times| - 1];
      if ShouldSkip(before, now) then before else Bumped(before, now)
  }

  /** Seconds from the third failure to the n-th, at the least. */
  function LeastSpan(n: nat): int
    requires n >= THRESHOLD
  {
    if n <= 8 then 60 * (Pow2(n - 3) - 1) else 1860 + 1800 * (n - 8)
  }

  lemma SpanGrowsByDelay(n: nat)
    requires n >= THRESHOLD
    ensures LeastSpan(n) + Delay(n) == LeastSpan(n + 1)
  {
    DelayValues();
    assert Pow2(5) == 32;
  }

  /**
   * Over a whole run: the n-th failure in a row comes at least `LeastSpan(n)` after the third, which was at
   * `third`. Stated from any record that has just had its third failure.
   */
  lemma {:induction false} FailuresSpreadOut(r: Record, third: int, times: seq<int>)
    requires OnSchedule(r) && r.failures == THRESHOLD && r.lastFailure == Some(third)
    ensures
      var e := AfterVisits(r, times);
      OnSchedule(e) && e.failures >= THRESHOLD && e.lastFailure.value >= third + LeastSpan(e.failures)
  {
    if times == [] {
      assert Pow2(0) == 1;
    } else {
      var before := AfterVisits(r, times[..|times| - 1]);
      FailuresSpreadOut(r, third, times[..|times| - 1]);
      FailureKeepsSchedule(before, times[|times| - 1]);
      SpanGrowsByDelay(before.failures);
    }
  }

  // ------------------------------------------------ nothing waits for ever

  /** Visits no further apart than `interval`, the first within it of `start`. */
  ghost predicate Paced(times: seq<int>, start: int, interval: int) {
    && (|times| > 0 ==> start <= times[0] <= start + interval)
    && forall i :: 0 < i < |times| ==> times[i - 1] <= times[i] <= times[i - 1] + interval
  }

  /**
   * The first visit that is not skipped comes within half an hour and one interval of the last failure,
   * once the visits reach that far. `i` is that visit.
   */
  lemma {:induction false} RetriedInTime(r: Record, times: seq<int>, interval: int) returns (i: nat)
    requires OnSchedule(r) && r.lastFailure.Some? && Paced(times, r.lastFailure.value, interval)
    requires |times| > 0 && times[|times| - 1] >= r.lastFailure.value + MAX_SECONDS
    ensures i < |times| && !ShouldSkip(r, times[i])
    ensures forall j :: 0 <= j < i ==> ShouldSkip(r, times[j])
    ensures times[i] <= r.lastFailure.value + MAX_SECONDS + interval
    ensures r.nextRetry.Some? ==> times[i] < r.nextRetry.value + interval || i == 0
  {
    if r.nextRetry.Some? { DelayIsMonotone(r.failures, r.failures); }
    i := 0;
    while ShouldSkip(r, times[i])
      invariant i < |times|
      invariant forall j :: 0 <= j < i ==> ShouldSkip(r, times[j])
      decreases |times| - i
    {
      i := i + 1;
    }
    if i > 0 { assert ShouldSkip(r, times[i - 1]); }
  }
}
