/** The sliding-window rate limiter: a deque of hit times per key, evicted from the left, with an
    occasional sweep of stale keys. It is specified by the full history of checks. */
module RateLimiting {
  import opened Basics

  datatype Quota = Quota(maxRequests: nat, window: real)

  /** The constructor refuses every other quota. */
  type Config = q: Quota | q.maxRequests >= 1 && q.window > 0.0 witness Quota(1, 1.0)

  datatype Answer = Allowed | Refused(retryAfter: real)

  /** One call of `check`: whose request, and what the clock read. */
  datatype Arrival = Arrival(key: Text, time: real)

  // ----- specification: count the whole history ---------------------------------------------

  /** The times in the half-open window `(lo, hi]`. */
  function Within(times: seq<real>, lo: real, hi: real): seq<real> {
    if times == [] then []
    else (if lo < times[0] <= hi then [times[0]] else []) + Within(times[1..], lo, hi)
  }

  /** The answer to a check at `now`, given the times of all admitted checks of that key ever. */
  function Decide(cfg: Config, admitted: seq<real>, now: real): Answer {
    var recent := Within(admitted, now - cfg.window, now);
    if |recent| < cfg.maxRequests then Allowed else Refused(recent[0] + cfg.window - now)
  }

  /** The times of the admitted checks of one key. Checks of other keys play no part. */
  function Admitted(cfg: Config, checks: seq<Arrival>, key: Text): seq<real> {
    if checks == [] then [] else
      var prior, c := Admitted(cfg, Before(checks), key), Last(checks);
      if c.key == key && Decide(cfg, prior, c.time).Allowed? then prior + [c.time] else prior
  }

  /** The answer the `i`-th of these checks gets. */
  function AnswerTo(cfg: Config, checks: seq<Arrival>, i: nat): Answer
    requires i < |checks|
  {
    Decide(cfg, Admitted(cfg, checks[..i], checks[i].key), checks[i].time)
  }

  function Before(checks: seq<Arrival>): (r: seq<Arrival>)
    requires checks != []
  {
    checks[..|checks| - 1]
  }

  function Last(checks: seq<Arrival>): Arrival
    requires checks != []
  {
    checks[|checks| - 1]
  }

  /** The clock never went backwards. */
  predicate Chronological(checks: seq<Arrival>) {
    checks == []
    || (Chronological(Before(checks)) && (|checks| > 1 ==> Last(Before(checks)).time <= Last(checks).time))
  }

  lemma ChronologicalNext(checks: seq<Arrival>, c: Arrival)
    requires Chronological(checks) && (checks != [] ==> Last(checks).time <= c.time)
    ensures Chronological(checks + [c])
  {
    assert Before(checks + [c]) == checks;
  }

  predicate Sorted(times: seq<real>) {
    forall i, j :: 0 <= i < j < |times| ==> times[i] <= times[j]
  }

  /** The keys with an admitted check in the window that ends at `now`. */
  ghost predicate Active(cfg: Config, checks: seq<Arrival>, key: Text, now: real) {
    Within(Admitted(cfg, checks, key), now - cfg.window, now) != []
  }

  lemma {:induction false} AdmittedIsSorted(cfg: Config, checks: seq<Arrival>, key: Text)
    requires Chronological(checks)
    ensures Sorted(Admitted(cfg, checks, key))
    ensures forall i :: 0 <= i < |Admitted(cfg, checks, key)|
              ==> checks != [] && Admitted(cfg, checks, key)[i] <= Last(checks).time
  {
    if checks != [] {
      AdmittedIsSorted(cfg, Before(checks), key);
    }
  }

  lemma AdmittedNext(cfg: Config, checks: seq<Arrival>, c: Arrival, key: Text)
    ensures Admitted(cfg, checks + [c], key)
            == if c.key == key && Decide(cfg, Admitted(cfg, checks, key), c.time).Allowed?
               then Admitted(cfg, checks, key) + [c.time] else Admitted(cfg, checks, key)
  {
    assert Before(checks + [c]) == checks;
  }

  lemma {:induction false} WithinConcat(a: seq<real>, b: seq<real>, lo: real, hi: real)
    ensures Within(a + b, lo, hi) == Within(a, lo, hi) + Within(b, lo, hi)
  {
    if a == [] {
      assert a + b == b;
    } else {
      assert (a + b)[1..] == a[1..] + b;
      WithinConcat(a[1..], b, lo, hi);
    }
  }

  lemma {:induction false} WithinAll(times: seq<real>, lo: real, hi: real)
    requires forall i :: 0 <= i < |times| ==> lo < times[i] <= hi
    ensures Within(times, lo, hi) == times
  {
    if times != [] {
      WithinAll(times[1..], lo, hi);
      assert times == [times[0]] + times[1..];
    }
  }

  lemma {:induction false} WithinNone(times: seq<real>, lo: real, hi: real)
    requires forall i :: 0 <= i < |times| ==> times[i] <= lo || hi < times[i]
    ensures Within(times, lo, hi) == []
  {
    if times != [] {
      WithinNone(times[1..], lo, hi);
    }
  }

  // ----- the limiter -----------------------------------------------------------------------

  type Hits = map<Text, seq<real>>

  function Deque(hits: Hits, key: Text): seq<real> {
    if key in hits then hits[key] else []
  }

  /** A deque agrees with the admitted checks of its key on every window that starts late enough. */
  ghost predicate Tracks(deque: seq<real>, all: seq<real>, cutoff: real) {
    forall lo, hi :: cutoff <= lo ==> Within(deque, lo, hi) == Within(all, lo, hi)
  }

  ghost predicate AllTracked(cfg: Config, log: seq<Arrival>, hits: Hits, cutoff: real) {
    forall key: Text :: Tracks(Deque(hits, key), Admitted(cfg, log, key), cutoff)
  }

  /** Every deque is nonempty, sorted and no longer than the quota. */
  ghost predicate Compact(cfg: Config, hits: Hits, now: real) {
    forall key :: key in hits ==> 0 < |hits[key]| <= cfg.maxRequests && SortedUpTo(hits[key], now)
  }

  predicate SortedUpTo(times: seq<real>, now: real) {
    Sorted(times) && forall i :: 0 <= i < |times| ==> times[i] <= now
  }

  predicate Stale(deque: seq<real>, cutoff: real) {
    deque == [] || deque[|deque| - 1] <= cutoff
  }

  lemma StaleIsInvisible(deque: seq<real>, cutoff: real)
    requires Sorted(deque) && Stale(deque, cutoff)
    ensures forall lo, hi :: cutoff <= lo ==> Within(deque, lo, hi) == []
  {
    forall lo, hi | cutoff <= lo ensures Within(deque, lo, hi) == [] {
      WithinNone(deque, lo, hi);
    }
  }

  ghost predicate Swept(before: Hits, after: Hits, cutoff: real) {
    && (forall k :: k in after <==> k in before && !Stale(before[k], cutoff))
    && (forall k :: k in after ==> after[k] == before[k])
  }

  /** Dropping stale deques changes nothing that a later check can see. */
  lemma SweepKeepsTracking(cfg: Config, log: seq<Arrival>, hits: Hits, swept: Hits, cutoff: real, now: real)
    requires AllTracked(cfg, log, hits, cutoff) && Compact(cfg, hits, now)
    requires Swept(hits, swept, cutoff)
    ensures AllTracked(cfg, log, swept, cutoff) && Compact(cfg, swept, now) && NoneStale(swept, cutoff)
  {
    forall key: Text ensures Tracks(Deque(swept, key), Admitted(cfg, log, key), cutoff) {
      assert Tracks(Deque(hits, key), Admitted(cfg, log, key), cutoff);
      if key in hits && key !in swept {
        StaleIsInvisible(hits[key], cutoff);
      }
    }
  }

  lemma StepKeepsTracking(cfg: Config, log: seq<Arrival>, hits: Hits, key: Text, mine: seq<real>, now: real)
    requires AllTracked(cfg, log, hits, now - cfg.window)
    requires Tracks(mine, Admitted(cfg, log, key), now - cfg.window)
    ensures
      var answer := Decide(cfg, Admitted(cfg, log, key), now);
      AllTracked(cfg, log + [Arrival(key, now)], hits[key := if answer.Allowed? then mine + [now] else mine],
                 now - cfg.window)
  {
    var all, answer := Admitted(cfg, log, key), Decide(cfg, Admitted(cfg, log, key), now);
    var kept := if answer.Allowed? then mine + [now] else mine;
    forall k: Text
      ensures Tracks(Deque(hits[key := kept], k), Admitted(cfg, log + [Arrival(key, now)], k), now - cfg.window)
    {
      AdmittedNext(cfg, log, Arrival(key, now), k);
      if k != key {
        assert Tracks(Deque(hits, k), Admitted(cfg, log, k), now - cfg.window);
      } else if answer.Allowed? {
        forall lo, hi | now - cfg.window <= lo ensures Within(kept, lo, hi) == Within(all + [now], lo, hi) {
          WithinConcat(mine, [now], lo, hi);
          WithinConcat(all, [now], lo, hi);
        }
      }
    }
  }

  /** Nothing is stored but the keys with an admitted check in the current window. */
  ghost predicate OnlyActiveStored(cfg: Config, log: seq<Arrival>, hits: Hits, now: real) {
    forall k :: k in hits <==> Active(cfg, log, k, now)
  }

  ghost predicate NoneStale(hits: Hits, cutoff: real) {
    forall k :: k in hits ==> !Stale(hits[k], cutoff)
  }

  lemma StoredKeysAreActive(cfg: Config, log: seq<Arrival>, hits: Hits, now: real)
    requires AllTracked(cfg, log, hits, now - cfg.window) && Compact(cfg, hits, now)
    requires NoneStale(hits, now - cfg.window)
    ensures OnlyActiveStored(cfg, log, hits, now)
  {
    forall k ensures k in hits <==> Active(cfg, log, k, now) {
      StoredKeyIsActive(cfg, log, hits, now, k);
    }
  }

  lemma StoredKeyIsActive(cfg: Config, log: seq<Arrival>, hits: Hits, now: real, k: Text)
    requires AllTracked(cfg, log, hits, now - cfg.window) && Compact(cfg, hits, now)
    requires NoneStale(hits, now - cfg.window)
    ensures k in hits <==> Active(cfg, log, k, now)
  {
    assert Tracks(Deque(hits, k), Admitted(cfg, log, k), now - cfg.window);
    assert k in hits ==> 0 < |hits[k]| && SortedUpTo(hits[k], now) && !Stale(hits[k], now - cfg.window);
    StoredIffActive(Deque(hits, k), Admitted(cfg, log, k), now - cfg.window, now);
  }

  lemma StoredIffActive(deque: seq<real>, all: seq<real>, cutoff: real, now: real)
    requires Tracks(deque, all, cutoff)
    requires deque != [] ==> SortedUpTo(deque, now) && !Stale(deque, cutoff)
    ensures deque != [] <==> Within(all, cutoff, now) != []
  {
    assert Within(deque, cutoff, now) == Within(all, cutoff, now);
    if deque != [] {
      NewestIsVisible(deque, cutoff, now);
    }
  }

  lemma NewestIsVisible(deque: seq<real>, cutoff: real, now: real)
    requires SortedUpTo(deque, now) && !Stale(deque, cutoff)
    ensures Within(deque, cutoff, now) != []
  {
    var newest := deque[|deque| - 1];
    assert deque == deque[..|deque| - 1] + [newest];
    WithinConcat(deque[..|deque| - 1], [newest], cutoff, now);
  }

  /** What is left after eviction is the window itself. */
  lemma EvictedIsWindow(mine: seq<real>, cutoff: real, now: real)
    requires SortedUpTo(mine, now) && (mine != [] ==> cutoff < mine[0])
    ensures Within(mine, cutoff, now) == mine
    ensures SortedUpTo(mine + [now], now)
  {
    WithinAll(mine, cutoff, now);
  }

  lemma DequeDecides(cfg: Config, all: seq<real>, mine: seq<real>, now: real)
    requires SortedUpTo(mine, now) && (mine != [] ==> now - cfg.window < mine[0])
    requires Tracks(mine, all, now - cfg.window)
    ensures Decide(cfg, all, now)
            == if |mine| < cfg.maxRequests then Allowed else Refused(mine[0] + cfg.window - now)
  {
    EvictedIsWindow(mine, now - cfg.window, now);
    assert Within(all, now - cfg.window, now) == mine;
  }

  /** The log holds every check so far; the deques are its recent part. */
  ghost predicate Consistent(cfg: Config, log: seq<Arrival>, hits: Hits) {
    && Chronological(log)
    && (log == [] ==> hits == map[])
    && (log != [] ==>
         var last := Last(log).time;
         AllTracked(cfg, log, hits, last - cfg.window) && Compact(cfg, hits, last))
  }

  /** What holds of the deques when the clock reads `now`, before the next check is answered. */
  ghost predicate ReadyAt(cfg: Config, log: seq<Arrival>, hits: Hits, now: real) {
    AllTracked(cfg, log, hits, now - cfg.window) && Compact(cfg, hits, now)
  }

  lemma ConsistencyAges(cfg: Config, log: seq<Arrival>, hits: Hits, now: real)
    requires Consistent(cfg, log, hits) && (log != [] ==> Last(log).time <= now)
    ensures ReadyAt(cfg, log, hits, now)
  {
    forall key: Text ensures Tracks(Deque(hits, key), Admitted(cfg, log, key), now - cfg.window) {
      if log != [] {
        assert Tracks(Deque(hits, key), Admitted(cfg, log, key), Last(log).time - cfg.window);
      }
    }
  }

  /** What holds of one key's deque while it is being evicted. */
  ghost predicate Remnant(cfg: Config, all: seq<real>, mine: seq<real>, now: real) {
    && Tracks(mine, all, now - cfg.window)
    && SortedUpTo(mine, now)
    && |mine| <= cfg.maxRequests
  }

  lemma StartsAsRemnant(cfg: Config, log: seq<Arrival>, hits: Hits, key: Text, now: real)
    requires ReadyAt(cfg, log, hits, now)
    ensures Remnant(cfg, Admitted(cfg, log, key), Deque(hits, key), now)
  {
  }

  lemma PopKeepsRemnant(cfg: Config, all: seq<real>, mine: seq<real>, now: real)
    requires Remnant(cfg, all, mine, now) && mine != [] && mine[0] <= now - cfg.window
    ensures Remnant(cfg, all, mine[1..], now)
  {
  }

  /** What the deque left after eviction says, and what it leaves behind. */
  function AnswerFrom(cfg: Config, mine: seq<real>, now: real): Answer {
    if |mine| < cfg.maxRequests then Allowed
    else Refused(if mine[0] + cfg.window - now > 0.0 then mine[0] + cfg.window - now else 0.0)
  }

  function Kept(cfg: Config, mine: seq<real>, now: real): seq<real> {
    if |mine| < cfg.maxRequests then mine + [now] else mine
  }

  /** Answering from the evicted deque keeps the deques in step with the history. */
  lemma StepKeepsConsistency(cfg: Config, log: seq<Arrival>, hits: Hits, key: Text, mine: seq<real>, now: real)
    requires Chronological(log) && (log != [] ==> Last(log).time <= now) && ReadyAt(cfg, log, hits, now)
    requires Remnant(cfg, Admitted(cfg, log, key), mine, now) && (mine != [] ==> now - cfg.window < mine[0])
    ensures Consistent(cfg, log + [Arrival(key, now)], hits[key := Kept(cfg, mine, now)])
  {
    DequeDecides(cfg, Admitted(cfg, log, key), mine, now);
    ChronologicalNext(log, Arrival(key, now));
    EvictedIsWindow(mine, now - cfg.window, now);
    StepKeepsTracking(cfg, log, hits, key, mine, now);
    StepKeepsCompact(cfg, hits, key, mine, now);
  }

  lemma StepKeepsCompact(cfg: Config, hits: Hits, key: Text, mine: seq<real>, now: real)
    requires Compact(cfg, hits, now) && SortedUpTo(mine, now) && |mine| <= cfg.maxRequests
    ensures Compact(cfg, hits[key := Kept(cfg, mine, now)], now)
  {
  }

  /** Not many keys are stored, or only keys that can still matter. */
  ghost predicate Tidy(hits: Hits, threshold: nat, cutoff: real) {
    |hits| <= threshold || NoneStale(hits, cutoff)
  }

  /** After a check at most one key more than the threshold is stored, or only active keys. */
  ghost predicate Bounded(cfg: Config, log: seq<Arrival>, hits: Hits, threshold: nat, now: real) {
    |hits| <= threshold + 1 || OnlyActiveStored(cfg, log, hits, now)
  }

  lemma StepStoresActive(cfg: Config, log: seq<Arrival>, hits: Hits, key: Text, mine: seq<real>, now: real)
    requires NoneStale(hits, now - cfg.window) && (mine != [] ==> now - cfg.window < mine[0]) && SortedUpTo(mine, now)
    requires Consistent(cfg, log + [Arrival(key, now)], hits[key := Kept(cfg, mine, now)])
    ensures OnlyActiveStored(cfg, log + [Arrival(key, now)], hits[key := Kept(cfg, mine, now)], now)
  {
    var after := hits[key := Kept(cfg, mine, now)];
    forall k | k in after ensures !Stale(after[k], now - cfg.window) {
      assert k != key ==> k in hits && after[k] == hits[k];
    }
    StoredKeysAreActive(cfg, log + [Arrival(key, now)], after, now);
  }

  /** One check, from the deque left after eviction. */
  lemma CheckKeeps(cfg: Config, log: seq<Arrival>, hits: Hits, key: Text, mine: seq<real>, now: real, threshold: nat)
    requires Chronological(log) && (log != [] ==> Last(log).time <= now)
    requires ReadyAt(cfg, log, hits, now) && Tidy(hits, threshold, now - cfg.window)
    requires Remnant(cfg, Admitted(cfg, log, key), mine, now) && (mine != [] ==> now - cfg.window < mine[0])
    ensures AnswerFrom(cfg, mine, now) == Decide(cfg, Admitted(cfg, log, key), now)
    ensures var after := hits[key := Kept(cfg, mine, now)];
            && Consistent(cfg, log + [Arrival(key, now)], after)
            && Bounded(cfg, log + [Arrival(key, now)], after, threshold, now)
  {
    DequeDecides(cfg, Admitted(cfg, log, key), mine, now);
    StepKeepsConsistency(cfg, log, hits, key, mine, now);
    if |hits| > threshold {
      StepStoresActive(cfg, log, hits, key, mine, now);
    }
  }

  class SlidingWindowRateLimiter {
    const config: Config
    const sweepThreshold: nat
    var hits: Hits
    ghost var log: seq<Arrival>

    constructor (config: Config, sweepThreshold: nat := 10000)
      ensures Valid() && log == [] && this.config == config && this.sweepThreshold == sweepThreshold
    {
      this.config, this.sweepThreshold := config, sweepThreshold;
      hits, log := map[], [];
    }

    ghost predicate Valid()
      reads this
    {
      Consistent(config, log, hits)
    }

    method Check(key: Text, now: real) returns (answer: Answer)
      requires Valid() && (log != [] ==> Last(log).time <= now)
      modifies this
      ensures Valid() && log == old(log) + [Arrival(key, now)]
      ensures answer == Decide(config, Admitted(config, old(log), key), now)
      ensures Bounded(config, log, hits, sweepThreshold, now)
    {
      SweepIfLarge(now);
      var mine := Evicted(key, now);
      CheckKeeps(config, log, hits, key, mine, now, sweepThreshold);
      if |mine| >= config.maxRequests {
        var wait := mine[0] + config.window - now;
        answer := Refused(if wait > 0.0 then wait else 0.0);
      } else {
        mine := mine + [now];
        answer := Allowed;
      }
      hits := hits[key := mine];
      log := log + [Arrival(key, now)];
    }

    /** The deque of a key without the hits that have left the window. */
    method Evicted(key: Text, now: real) returns (mine: seq<real>)
      requires ReadyAt(config, log, hits, now)
      ensures Remnant(config, Admitted(config, log, key), mine, now) && (mine != [] ==> now - config.window < mine[0])
    {
      mine := if key in hits then hits[key] else [];
      StartsAsRemnant(config, log, hits, key, now);
      while mine != [] && mine[0] <= now - config.window
        invariant Remnant(config, Admitted(config, log, key), mine, now)
      {
        PopKeepsRemnant(config, Admitted(config, log, key), mine, now);
        mine := mine[1..];
      }
    }

    method SweepIfLarge(now: real)
      requires Valid() && (log != [] ==> Last(log).time <= now)
      modifies this`hits
      ensures ReadyAt(config, log, hits, now) && Tidy(hits, sweepThreshold, now - config.window)
    {
      ConsistencyAges(config, log, hits, now);
      if |hits| > sweepThreshold {
        ghost var stored := hits;
        Sweep(now - config.window);
        SweepKeepsTracking(config, log, stored, hits, now - config.window, now);
      }
    }

    /** Forgets the keys whose newest hit has expired. */
    method Sweep(cutoff: real)
      modifies this`hits
      ensures Swept(old(hits), hits, cutoff)
    {
      var stale := set k | k in hits && Stale(hits[k], cutoff);
      ghost var doomed := stale;
      while stale != {}
        invariant stale <= doomed
        invariant forall k :: k in hits <==> k in old(hits) && k !in doomed - stale
        invariant forall k :: k in hits ==> hits[k] == old(hits)[k]
      {
        var k :| k in stale;
        hits := hits - {k};
        stale := stale - {k};
      }
    }
  }
}
