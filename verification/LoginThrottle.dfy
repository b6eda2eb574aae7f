/** common/webauth.py: the sliding-window login throttle, and the login handler that calls it. */
module LoginThrottle {

  /** The attempts a check at `now` counts. */
  function Recent(attempts: seq<int>, now: int, window: int): (r: seq<int>)
    ensures |r| <= |attempts|
  {
    if attempts == [] then []
    else
      var rest := Recent(attempts[..|attempts| - 1], now, window);
      if now - attempts[|attempts| - 1] < window then rest + [attempts[|attempts| - 1]] else rest
  }

  predicate Admits(history: seq<int>, now: int, maxAttempts: int, window: int) {
    |Recent(history, now, window)| < maxAttempts
  }

  /** The attempts less than `window` seconds old, one by one. */
  ghost function Young(attempts: seq<int>, now: int, window: int): set<int> {
    set i | 0 <= i < |attempts| && now - attempts[i] < window
  }

  lemma {:induction false} RecentCountsTheYoung(attempts: seq<int>, now: int, window: int)
    ensures |Recent(attempts, now, window)| == |Young(attempts, now, window)|
  {
    if attempts == [] {
      assert Young(attempts, now, window) == {};
    } else {
      var n := |attempts| - 1;
      RecentCountsTheYoung(attempts[..n], now, window);
      assert Young(attempts, now, window) ==
        Young(attempts[..n], now, window) + if now - attempts[n] < window then {n} else {};
    }
  }

  /** Pruning at an earlier time drops nothing a later check would count. */
  lemma {:induction false} PruningIsInvisible(attempts: seq<int>, earlier: int, later: int, window: int)
    requires earlier <= later
    ensures Recent(Recent(attempts, earlier, window), later, window) == Recent(attempts, later, window)
  {
    if attempts != [] {
      var n := |attempts| - 1;
      PruningIsInvisible(attempts[..n], earlier, later, window);
      var kept := Recent(attempts[..n], earlier, window);
      if earlier - attempts[n] < window {
        assert (kept + [attempts[n]])[..|kept|] == kept;
      }
    }
  }

  lemma RecentOfAppend(attempts: seq<int>, t: int, now: int, window: int)
    ensures Recent(attempts + [t], now, window) == Recent(attempts, now, window) + (if now - t < window then [t] else [])
  {
    assert (attempts + [t])[..|attempts|] == attempts;
  }

  class Throttle {
    const maxAttempts: int
    const window: int
    var attempts: map<string, seq<int>>
    /** Every failure recorded since the key was last reset, never pruned. */
    ghost var failures: map<string, seq<int>>
    ghost var clock: int

    ghost function History(key: string): seq<int>
      reads this
    {
      if key in failures then failures[key] else []
    }

    function Stored(key: string): seq<int>
      reads this
    {
      if key in attempts then attempts[key] else []
    }

    /** The pruned list answers every present and future check as the full history would. */
    ghost predicate Valid()
      reads this
    {
      forall key, now :: clock <= now ==>
        Recent(Stored(key), now, window) == Recent(History(key), now, window)
    }

    constructor (maxAttempts: int := 5, window: int := 300)
      ensures Valid() && attempts == map[] && failures == map[]
      ensures this.maxAttempts == maxAttempts && this.window == window
    {
      this.maxAttempts, this.window := maxAttempts, window;
      attempts, failures, clock := map[], map[], 0;
    }

    method Check(key: string, now: int) returns (admitted: bool)
      requires Valid() && clock <= now
      modifies this
      ensures Valid() && clock == now && failures == old(failures)
      ensures admitted == Admits(History(key), now, maxAttempts, window)
      ensures admitted <==> |Young(History(key), now, window)| < maxAttempts
      ensures forall k :: k != key ==> Stored(k) == old(Stored(k))
    {
      ghost var before := Stored(key);
      var kept := [];
      var list := Stored(key);
      for i := 0 to |list|
        invariant kept == Recent(list[..i], now, window)
      {
        assert list[..i + 1][..i] == list[..i];
        if now - list[i] < window {
          kept := kept + [list[i]];
        }
      }
      assert list[..|list|] == list;
      attempts := attempts[key := kept];
      clock := now;
      forall k, later | now <= later
        ensures Recent(Stored(k), later, window) == Recent(History(k), later, window)
      {
        assert old(Recent(Stored(k), later, window)) == old(Recent(History(k), later, window));
        if k == key {
          PruningIsInvisible(before, now, later, window);
        }
      }
      admitted := |kept| < maxAttempts;
      RecentCountsTheYoung(History(key), now, window);
    }

    method RecordFailure(key: string, now: int)
      requires Valid() && clock <= now
      modifies this
      ensures Valid() && clock == now
      ensures failures == old(failures)[key := old(History(key)) + [now]]
      ensures attempts == old(attempts)[key := old(Stored(key)) + [now]]
    {
      ghost var list, full := Stored(key), History(key);
      attempts := attempts[key := Stored(key) + [now]];
      failures := failures[key := full + [now]];
      clock := now;
      forall k, later | now <= later
        ensures Recent(Stored(k), later, window) == Recent(History(k), later, window)
      {
        assert old(Recent(Stored(k), later, window)) == old(Recent(History(k), later, window));
        if k == key {
          RecentOfAppend(list, now, later, window);
          RecentOfAppend(full, now, later, window);
        }
      }
    }

    method Reset(key: string)
      requires Valid()
      modifies this
      ensures Valid() && clock == old(clock)
      ensures failures == old(failures) - {key} && attempts == old(attempts) - {key}
    {
      attempts := attempts - {key};
      failures := failures - {key};
      forall k, later | clock <= later
        ensures Recent(Stored(k), later, window) == Recent(History(k), later, window)
      {
        assert old(Recent(Stored(k), later, window)) == old(Recent(History(k), later, window));
      }
    }
  }

  // -------------------------------------------------- runs of login requests

  /**
   * One key's login requests. The handler checks, then awaits the form, then records or resets, so other
   * requests may run in between: `Begin` and `Fail`/`Succeed` are separate events.
   */
  datatype Event = Begin(at: int) | Fail(at: int) | Succeed(at: int)

  /** `history` is what `Throttle.History` holds; `inFlight` counts requests past their check. */
  datatype Book = Book(history: seq<int>, inFlight: nat, clock: int)

  predicate Possible(b: Book, e: Event) {
    b.clock <= e.at && (!e.Begin? ==> b.inFlight > 0)
  }

  function After(b: Book, e: Event, max: int, window: int): Book
    requires Possible(b, e)
  {
    match e
    case Begin(at) => b.(inFlight := if Admits(b.history, at, max, window) then b.inFlight + 1 else b.inFlight, clock := at)
    case Fail(at) => Book(b.history + [at], b.inFlight - 1, at)
    case Succeed(at) => Book([], b.inFlight - 1, at)
  }

  /** Events possible one after another, with never more than `k` requests between check and outcome. */
  predicate Run(b: Book, es: seq<Event>, k: nat, max: int, window: int)
    decreases |es|
  {
    b.inFlight <= k &&
    (es == [] || (Possible(b, es[0]) && Run(After(b, es[0], max, window), es[1..], k, max, window)))
  }

  function AfterRun(b: Book, es: seq<Event>, k: nat, max: int, window: int): Book
    requires Run(b, es, k, max, window)
    decreases |es|
  {
    if es == [] then b else AfterRun(After(b, es[0], max, window), es[1..], k, max, window)
  }

  /** Failures recorded in the half-open window starting at `from`. */
  function InWindow(history: seq<int>, from: int, window: int): nat {
    if history == [] then 0
    else
      var t := history[|history| - 1];
      InWindow(history[..|history| - 1], from, window) + (if from <= t < from + window then 1 else 0)
  }

  ghost predicate Bounded(b: Book, k: nat, max: int, window: int) {
    && b.inFlight <= k
    && (forall t :: t in b.history ==> t <= b.clock)
    && |Recent(b.history, b.clock, window)| + b.inFlight <= max - 1 + k
    && forall from :: InWindow(b.history, from, window) <= max - 1 + k
  }

  lemma {:induction false} RecentShrinks(history: seq<int>, now: int, later: int, window: int)
    requires now <= later
    ensures |Recent(history, later, window)| <= |Recent(history, now, window)|
  {
    if history != [] { RecentShrinks(history[..|history| - 1], now, later, window); }
  }

  lemma {:induction false} WindowWithinRecent(history: seq<int>, from: int, now: int, window: int)
    requires now < from + window
    ensures InWindow(history, from, window) <= |Recent(history, now, window)|
  {
    if history != [] { WindowWithinRecent(history[..|history| - 1], from, now, window); }
  }

  lemma StepKeepsBound(b: Book, e: Event, k: nat, max: int, window: int)
    requires Possible(b, e) && Bounded(b, k, max, window) && After(b, e, max, window).inFlight <= k
    requires 0 < window && 1 <= max
    ensures Bounded(After(b, e, max, window), k, max, window)
  {
    var b' := After(b, e, max, window);
    RecentShrinks(b.history, b.clock, e.at, window);
    if e.Fail? {
      RecentOfAppend(b.history, e.at, e.at, window);
      assert b'.history[..|b.history|] == b.history;
      forall from
        ensures InWindow(b'.history, from, window) <= max - 1 + k
      {
        if e.at < from + window { WindowWithinRecent(b.history, from, e.at, window); }
      }
    }
  }

  /**
   * No window of `window` seconds holds more than `max - 1 + k` recorded failures between resets, where
   * `k` bounds the requests in flight at once. With `k == 1` (check and record back to back) that is `max`.
   */
  lemma {:induction false} WindowHoldsAtMost(b: Book, es: seq<Event>, k: nat, max: int, window: int)
    requires 0 < window && 1 <= max
    requires Run(b, es, k, max, window) && Bounded(b, k, max, window)
    ensures forall from :: InWindow(AfterRun(b, es, k, max, window).history, from, window) <= max - 1 + k
    decreases |es|
  {
    if es != [] {
      StepKeepsBound(b, es[0], k, max, window);
      WindowHoldsAtMost(After(b, es[0], max, window), es[1..], k, max, window);
    }
  }

  /** The promise as documented: five per five minutes, when no two requests for a key overlap. */
  lemma FiveInFiveMinutes(es: seq<Event>, from: int)
    requires Run(Book([], 0, 0), es, 1, 5, 300)
    ensures InWindow(AfterRun(Book([], 0, 0), es, 1, 5, 300).history, from, 300) <= 5
  {
    WindowHoldsAtMost(Book([], 0, 0), es, 1, 5, 300);
  }

  // The bound is reached, so overlapping requests do exceed `max`: `max - 1` plain failures, then `k`
  // checks that all pass, then `k` failures.

  function Repeat(e: Event, n: nat): (es: seq<Event>)
    ensures |es| == n
  {
    if n == 0 then [] else [e] + Repeat(e, n - 1)
  }

  function PlainFailures(n: nat): seq<Event> {
    if n == 0 then [] else [Begin(0), Fail(0)] + PlainFailures(n - 1)
  }

  function Zeros(n: nat): (z: seq<int>)
    ensures |z| == n
  {
    if n == 0 then [] else Zeros(n - 1) + [0]
  }

  lemma {:induction false} ZerosAllCount(n: nat, window: int)
    requires 0 < window
    ensures Recent(Zeros(n), 0, window) == Zeros(n) && InWindow(Zeros(n), 0, window) == n
  {
    if n > 0 { ZerosAllCount(n - 1, window); }
  }

  lemma {:induction false} FailAll(n: nat, j: nat, k: nat, max: int, window: int)
    requires j <= k
    ensures Run(Book(Zeros(n), j, 0), Repeat(Fail(0), j), k, max, window)
    ensures AfterRun(Book(Zeros(n), j, 0), Repeat(Fail(0), j), k, max, window).history == Zeros(n + j)
    decreases j
  {
    if j > 0 {
      assert Repeat(Fail(0), j)[1..] == Repeat(Fail(0), j - 1);
      FailAll(n + 1, j - 1, k, max, window);
    }
  }

  lemma {:induction false} BeginThenFailAll(n: nat, j: nat, k: nat, max: int, window: int)
    requires j <= k && n < max && 0 < window
    ensures
      var es := Repeat(Begin(0), k - j) + Repeat(Fail(0), k);
      Run(Book(Zeros(n), j, 0), es, k, max, window) &&
      AfterRun(Book(Zeros(n), j, 0), es, k, max, window).history == Zeros(n + k)
    decreases k - j
  {
    var es := Repeat(Begin(0), k - j) + Repeat(Fail(0), k);
    if j == k {
      assert es == Repeat(Fail(0), k);
      FailAll(n, k, k, max, window);
    } else {
      assert es[1..] == Repeat(Begin(0), k - j - 1) + Repeat(Fail(0), k);
      ZerosAllCount(n, window);
      BeginThenFailAll(n, j + 1, k, max, window);
    }
  }

  lemma {:induction false} PlainThenOverlap(n: nat, m: nat, k: nat, max: int, window: int)
    requires 1 <= k && m + n < max && 0 < window
    ensures
      var es := PlainFailures(m) + (Repeat(Begin(0), k) + Repeat(Fail(0), k));
      Run(Book(Zeros(n), 0, 0), es, k, max, window) &&
      AfterRun(Book(Zeros(n), 0, 0), es, k, max, window).history == Zeros(n + m + k)
    decreases m
  {
    var tail := Repeat(Begin(0), k) + Repeat(Fail(0), k);
    if m == 0 {
      assert PlainFailures(m) + tail == tail;
      BeginThenFailAll(n, 0, k, max, window);
    } else {
      PlainThenOverlap(n + 1, m - 1, k, max, window);
      OneFailureFirst(n, PlainFailures(m - 1) + tail, k, max, window);
      PlainFirst(m, tail);
    }
  }

  lemma PlainFirst(m: nat, tail: seq<Event>)
    requires m > 0
    ensures PlainFailures(m) + tail == [Begin(0), Fail(0)] + (PlainFailures(m - 1) + tail)
  {
  }

  lemma OneFailureFirst(n: nat, es: seq<Event>, k: nat, max: int, window: int)
    requires 1 <= k && n < max && 0 < window && Run(Book(Zeros(n + 1), 0, 0), es, k, max, window)
    ensures
      var more := [Begin(0), Fail(0)] + es;
      Run(Book(Zeros(n), 0, 0), more, k, max, window) &&
      AfterRun(Book(Zeros(n), 0, 0), more, k, max, window) == AfterRun(Book(Zeros(n + 1), 0, 0), es, k, max, window)
  {
    ZerosAllCount(n, window);
    var b, c := Book(Zeros(n), 0, 0), Book(Zeros(n), 1, 0);
    FirstEvent(c, Fail(0), es, k, max, window);
    FirstEvent(b, Begin(0), [Fail(0)] + es, k, max, window);
    assert [Begin(0)] + ([Fail(0)] + es) == [Begin(0), Fail(0)] + es;
  }

  lemma FirstEvent(b: Book, e: Event, es: seq<Event>, k: nat, max: int, window: int)
    requires b.inFlight <= k && Possible(b, e) && Run(After(b, e, max, window), es, k, max, window)
    ensures Run(b, [e] + es, k, max, window)
    ensures AfterRun(b, [e] + es, k, max, window) == AfterRun(After(b, e, max, window), es, k, max, window)
  {
    assert ([e] + es)[1..] == es;
  }

  /** The bound is exact: with up to `k` requests in flight, some run records `max - 1 + k` in one window. */
  lemma BoundIsReached(k: nat, max: nat, window: int) returns (es: seq<Event>)
    requires 1 <= k && 1 <= max && 0 < window
    ensures Run(Book([], 0, 0), es, k, max, window)
    ensures InWindow(AfterRun(Book([], 0, 0), es, k, max, window).history, 0, window) == max - 1 + k
  {
    var total := max - 1 + k;
    es := PlainFailures(max - 1) + (Repeat(Begin(0), k) + Repeat(Fail(0), k));
    var start := Book(Zeros(0), 0, 0);
    PlainThenOverlap(0, max - 1, k, max, window);
    assert start == Book([], 0, 0);
    var end := AfterRun(start, es, k, max, window).history;
    assert InWindow(end, 0, window) == total by {
      assert end == Zeros(total);
      ZerosAllCount(total, window);
    }
  }
}
