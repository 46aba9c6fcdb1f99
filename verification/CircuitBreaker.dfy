/** The per-tool circuit breaker. Each method is one atomic step that reads the clock once. */
module CircuitBreaking {
  import opened Basics

  datatype Settings = Settings(threshold: nat, cooldown: real)

  /** The constructor refuses every other setting. */
  type Config = s: Settings | s.threshold >= 1 && s.cooldown > 0.0 witness Settings(1, 1.0)

  datatype Mode = Closed | Open | HalfOpen

  datatype Breaker = Breaker(mode: Mode, failures: nat, openedAt: real, probeInFlight: bool)

  const FRESH := Breaker(Closed, 0, 0.0, false)

  // ----- the steps as functions --------------------------------------------------------------

  function Allow(cfg: Config, b: Breaker, now: real): (Breaker, bool) {
    match b.mode
    case Closed => (b, true)
    case Open =>
      if now - b.openedAt >= cfg.cooldown then (b.(mode := HalfOpen, probeInFlight := true), true) else (b, false)
    case HalfOpen =>
      if !b.probeInFlight then (b.(probeInFlight := true), true) else (b, false)
  }

  function RetryAfter(cfg: Config, b: Breaker, now: real): real {
    if b.mode == Open && b.openedAt + cfg.cooldown - now > 0.0 then b.openedAt + cfg.cooldown - now else 0.0
  }

  function Succeed(b: Breaker): Breaker { Breaker(Closed, 0, b.openedAt, false) }

  function Trip(now: real): Breaker { Breaker(Open, 0, now, false) }

  function Fail(cfg: Config, b: Breaker, now: real): Breaker {
    if b.mode == HalfOpen then Trip(now)
    else if b.failures + 1 >= cfg.threshold then Trip(now)
    else b.(failures := b.failures + 1)
  }

  // ----- the objects -------------------------------------------------------------------------

  class CircuitBreaker {
    const config: Config
    var mode: Mode
    var failures: nat
    var openedAt: real
    var probeInFlight: bool

    constructor (config: Config)
      ensures this.config == config && View() == FRESH
    {
      this.config := config;
      mode, failures, openedAt, probeInFlight := Closed, 0, 0.0, false;
    }

    function View(): Breaker
      reads this
    {
      Breaker(mode, failures, openedAt, probeInFlight)
    }

    method TryAcquire(now: real) returns (allowed: bool)
      modifies this
      ensures (View(), allowed) == Allow(config, old(View()), now)
    {
      if mode == Closed {
        return true;
      }
      if mode == Open {
        if now - openedAt >= config.cooldown {
          mode := HalfOpen;
          probeInFlight := true;
          return true;
        }
        return false;
      }
      if !probeInFlight {
        probeInFlight := true;
        return true;
      }
      return false;
    }

    method RecordSuccess()
      modifies this
      ensures View() == Succeed(old(View()))
    {
      mode := Closed;
      failures := 0;
      probeInFlight := false;
    }

    method RecordFailure(now: real)
      modifies this
      ensures View() == Fail(config, old(View()), now)
    {
      if mode == HalfOpen {
        TripNow(now);
        return;
      }
      failures := failures + 1;
      if failures >= config.threshold {
        TripNow(now);
      }
    }

    method TripNow(now: real)
      modifies this
      ensures View() == Trip(now)
    {
      mode := Open;
      openedAt := now;
      probeInFlight := false;
      failures := 0;
    }
  }

  class CircuitBreakerRegistry {
    const config: Config
    var breakers: map<Text, CircuitBreaker>

    constructor (config: Config)
      ensures Valid() && breakers == map[] && this.config == config
    {
      this.config := config;
      breakers := map[];
    }

    /** Every tool has a breaker of its own. */
    ghost predicate Valid()
      reads this, breakers.Values
    {
      && (forall k :: k in breakers ==> breakers[k].config == config)
      && (forall j, k :: j in breakers && k in breakers && j != k ==> breakers[j] != breakers[k])
    }

    ghost function View(): map<Text, Breaker>
      reads this, breakers.Values
    {
      map k | k in breakers :: breakers[k].View()
    }

    method Get(key: Text) returns (breaker: CircuitBreaker)
      requires Valid()
      modifies this
      ensures Valid() && key in breakers && breakers[key] == breaker
      ensures if key in old(breakers) then breakers == old(breakers)
              else fresh(breaker) && breakers == old(breakers)[key := breaker]
      ensures breaker.View() == (if key in old(View()) then old(View())[key] else FRESH)
      ensures View() == old(View())[key := breaker.View()]
    {
      if key in breakers {
        breaker := breakers[key];
      } else {
        breaker := new CircuitBreaker(config);
        breakers := breakers[key := breaker];
      }
    }

    /** Fetches the tool's breaker and asks it; a refusal comes with the time to wait. */
    method Ask(key: Text, now: real) returns (allowed: bool, retryAfter: real)
      requires Valid()
      modifies this, breakers.Values
      ensures Valid() && key in breakers && fresh(breakers.Values - old(breakers.Values))
      ensures var b := if key in old(View()) then old(View())[key] else FRESH;
              && allowed == Allow(config, b, now).1
              && View() == old(View())[key := Allow(config, b, now).0]
              && retryAfter == RetryAfter(config, Allow(config, b, now).0, now)
    {
      var breaker := Get(key);
      allowed := TryAt(key, now);
      retryAfter := RetryAfter(config, breaker.View(), now);
    }

    method TryAt(key: Text, now: real) returns (allowed: bool)
      requires Valid() && key in breakers
      modifies breakers[key]
      ensures Valid()
      ensures allowed == Allow(config, old(View())[key], now).1
      ensures View() == old(View())[key := Allow(config, old(View())[key], now).0]
    {
      allowed := breakers[key].TryAcquire(now);
      assert forall k :: k in breakers && k != key ==> breakers[k].View() == old(breakers[k].View());
    }

    /** Reports the outcome of a call that was let through. */
    method Tell(key: Text, ok: bool, now: real)
      requires Valid() && key in breakers
      modifies breakers[key]
      ensures Valid()
      ensures View() == old(View())[key := if ok then Succeed(old(View())[key])
                                           else Fail(config, old(View())[key], now)]
    {
      var breaker := breakers[key];
      if ok {
        breaker.RecordSuccess();
      } else {
        breaker.RecordFailure(now);
      }
      assert forall k :: k in breakers && k != key ==> breakers[k].View() == old(breakers[k].View());
    }
  }
}

/** What the breaker guarantees over whole runs of calls and late completions. */
module BreakerTheorems {
  import opened Basics
  import opened CircuitBreaking

  /** One call of `allow`, `record_success` or `record_failure`. */
  datatype Event = Asked(time: real) | Succeeded(time: real) | Failed(time: real)

  function Apply(cfg: Config, b: Breaker, e: Event): Breaker {
    match e
    case Asked(t) => Allow(cfg, b, t).0
    case Succeeded(_) => Succeed(b)
    case Failed(t) => Fail(cfg, b, t)
  }

  function Most(es: seq<Event>): seq<Event>
    requires es != []
  {
    es[..|es| - 1]
  }

  function Last(es: seq<Event>): Event
    requires es != []
  {
    es[|es| - 1]
  }

  function Run(cfg: Config, b: Breaker, es: seq<Event>): Breaker {
    if es == [] then b else Apply(cfg, Run(cfg, b, Most(es)), Last(es))
  }

  /** The times of the calls let through. */
  function Admissions(cfg: Config, b: Breaker, es: seq<Event>): seq<real> {
    if es == [] then [] else
      Admissions(cfg, b, Most(es))
      + (if Last(es).Asked? && Allow(cfg, Run(cfg, b, Most(es)), Last(es).time).1 then [Last(es).time] else [])
  }

  predicate Chronological(t: real, es: seq<Event>) {
    es != [] ==> Chronological(t, Most(es)) && Latest(t, Most(es)) <= Last(es).time
  }

  function Latest(t: real, es: seq<Event>): real {
    if es == [] then t else Last(es).time
  }

  // ----- the state is a function of the history ------------------------------------------------

  /** Does the last of these events, a failure, trip the breaker? It does if a probe was out, or if
      it is the threshold-th failure since the last success or trip. */
  predicate Trips(cfg: Config, es: seq<Event>)
    requires es != []
    decreases |es|, 0
  {
    Last(es).Failed? && (Probing(cfg, Most(es)) || FailuresSince(cfg, Most(es)) + 1 >= cfg.threshold)
  }

  /** Failures recorded since the last success or trip. */
  function FailuresSince(cfg: Config, es: seq<Event>): nat
    decreases |es|, 1
  {
    if es == [] || Last(es).Succeeded? || Trips(cfg, es) then 0
    else FailuresSince(cfg, Most(es)) + (if Last(es).Failed? then 1 else 0)
  }

  /** When the breaker last tripped, unless a success has come since. */
  function LastTrip(cfg: Config, es: seq<Event>): Option<real>
    decreases |es|, 1
  {
    if es == [] || Last(es).Succeeded? then None
    else if Trips(cfg, es) then Some(Last(es).time)
    else LastTrip(cfg, Most(es))
  }

  /** Has a call been let through since the last trip, at least one cooldown after it? */
  predicate Probing(cfg: Config, es: seq<Event>)
    decreases |es|, 1
  {
    && es != []
    && !Last(es).Succeeded?
    && !Trips(cfg, es)
    && (|| Probing(cfg, Most(es))
        || (Last(es).Asked? && LastTrip(cfg, Most(es)).Some?
            && Last(es).time - LastTrip(cfg, Most(es)).value >= cfg.cooldown))
  }

  /** In every reachable state the breaker is half open exactly if its probe flag is set, so a
      half-open breaker lets nobody else through; the counter holds the failures since the last
      success or trip and stays below the threshold; the mode follows from the history. */
  lemma {:induction false} StateIsHistory(cfg: Config, es: seq<Event>, now: real)
    ensures
      var b := Run(cfg, FRESH, es);
      && (b.mode == HalfOpen <==> b.probeInFlight)
      && (b.mode == HalfOpen <==> Probing(cfg, es))
      && (b.mode == Closed <==> LastTrip(cfg, es) == None)
      && (b.mode != Closed ==> LastTrip(cfg, es) == Some(b.openedAt))
      && b.failures == FailuresSince(cfg, es) < cfg.threshold
      && (b.mode == HalfOpen ==> Allow(cfg, b, now) == (b, false))
    decreases |es|
  {
    if es != [] {
      StateIsHistory(cfg, Most(es), now);
    }
  }

  // ----- load bound ----------------------------------------------------------------------------

  predicate NoSuccess(es: seq<Event>) {
    es != [] ==> NoSuccess(Most(es)) && !Last(es).Succeeded?
  }

  /** Each time is at least `gap` after the one before, the first one after `t`. */
  predicate Spaced(t: real, times: seq<real>, gap: real) {
    times != [] ==>
      var rest := times[..|times| - 1];
      Spaced(t, rest, gap) && LastAdmission(t, rest) + gap <= times[|times| - 1]
  }

  function LastAdmission(t: real, times: seq<real>): real {
    if times == [] then t else times[|times| - 1]
  }

  lemma SpacedNext(t: real, times: seq<real>, gap: real, u: real)
    requires Spaced(t, times, gap) && LastAdmission(t, times) + gap <= u
    ensures Spaced(t, times + [u], gap)
  {
    assert (times + [u])[..|times|] == times;
  }

  /** What holds after a trip at `t0` as long as nothing succeeds. */
  ghost predicate Throttled(cfg: Config, t0: real, times: seq<real>, c: Breaker, latest: real) {
    && Spaced(t0, times, cfg.cooldown) && LastAdmission(t0, times) <= latest
    && c.mode != Closed && (c.mode == HalfOpen <==> c.probeInFlight)
    && (c.mode == Open ==> LastAdmission(t0, times) <= c.openedAt <= latest)
  }

  lemma AskKeepsThrottled(cfg: Config, t0: real, times: seq<real>, c: Breaker, latest: real, now: real)
    requires Throttled(cfg, t0, times, c, latest) && latest <= now
    ensures var (after, granted) := Allow(cfg, c, now);
            Throttled(cfg, t0, if granted then times + [now] else times, after, now)
  {
    if Allow(cfg, c, now).1 {
      SpacedNext(t0, times, cfg.cooldown, now);
    }
  }

  lemma FailKeepsThrottled(cfg: Config, t0: real, times: seq<real>, c: Breaker, latest: real, now: real)
    requires Throttled(cfg, t0, times, c, latest) && latest <= now
    ensures Throttled(cfg, t0, times, Fail(cfg, c, now), now)
  {
  }

  /** After a trip at `b.openedAt`, with no success, whatever late failures arrive. */
  lemma {:induction false} AdmissionsSpaced(cfg: Config, b: Breaker, es: seq<Event>)
    requires b.mode == Open && !b.probeInFlight && Chronological(b.openedAt, es) && NoSuccess(es)
    ensures Throttled(cfg, b.openedAt, Admissions(cfg, b, es), Run(cfg, b, es), Latest(b.openedAt, es))
    decreases |es|
  {
    if es != [] {
      var times, c := Admissions(cfg, b, Most(es)), Run(cfg, b, Most(es));
      AdmissionsSpaced(cfg, b, Most(es));
      if Last(es).Asked? {
        AskKeepsThrottled(cfg, b.openedAt, times, c, Latest(b.openedAt, Most(es)), Last(es).time);
        assert times + [] == times;
      } else {
        FailKeepsThrottled(cfg, b.openedAt, times, c, Latest(b.openedAt, Most(es)), Last(es).time);
        assert times + [] == times;
      }
    }
  }

  lemma {:induction false} SpacedIsSparse(t: real, times: seq<real>, gap: real)
    requires Spaced(t, times, gap)
    ensures |times| as real * gap <= LastAdmission(t, times) - t
  {
    if times != [] {
      SpacedIsSparse(t, times[..|times| - 1], gap);
      assert |times| as real * gap == (|times| - 1) as real * gap + gap;
    }
  }

  lemma AtMostFloor(n: nat, gap: real, span: real)
    requires gap > 0.0 && n as real * gap <= span
    ensures n <= (span / gap).Floor
  {
    var q := span / gap;
    assert q * gap == span;
    assert n as real <= q by {
      ScaleDown(n as real, q, gap);
    }
  }

  lemma ScaleDown(x: real, y: real, gap: real)
    requires gap > 0.0 && x * gap <= y * gap
    ensures x <= y
  {
    assert (y - x) * gap >= 0.0;
  }

  /** While nothing succeeds after a trip at t0, admissions are at least a cooldown apart and number
      at most floor((t - t0) / cooldown). */
  lemma LoadAfterTrip(cfg: Config, b: Breaker, es: seq<Event>)
    requires b.mode == Open && !b.probeInFlight && Chronological(b.openedAt, es) && NoSuccess(es)
    ensures Spaced(b.openedAt, Admissions(cfg, b, es), cfg.cooldown)
    ensures |Admissions(cfg, b, es)| <= ((Latest(b.openedAt, es) - b.openedAt) / cfg.cooldown).Floor
  {
    AdmissionsSpaced(cfg, b, es);
    SparseIsFew(b.openedAt, Admissions(cfg, b, es), cfg.cooldown, Latest(b.openedAt, es));
  }

  lemma SparseIsFew(t: real, times: seq<real>, gap: real, now: real)
    requires Spaced(t, times, gap) && gap > 0.0 && LastAdmission(t, times) <= now
    ensures |times| <= ((now - t) / gap).Floor
  {
    SpacedIsSparse(t, times, gap);
    AtMostFloor(|times|, gap, now - t);
  }

  /** Calls let through and not yet reported, if `outstanding` were so at the start. */
  function InFlight(cfg: Config, b: Breaker, es: seq<Event>, outstanding: int): int {
    if es == [] then outstanding else
      InFlight(cfg, b, Most(es), outstanding)
      + (if Last(es).Asked? then (if Allow(cfg, Run(cfg, b, Most(es)), Last(es).time).1 then 1 else 0) else -1)
  }

  ghost predicate AtMostInFlight(cfg: Config, b: Breaker, es: seq<Event>, outstanding: int, most: int) {
    forall i :: 0 <= i <= |es| ==> InFlight(cfg, b, es[..i], outstanding) <= most
  }

  /** Before the first trip every failure has used up one admission. */
  lemma {:induction false} LoadWhileClosed(cfg: Config, b: Breaker, es: seq<Event>, outstanding: int)
    requires b.mode == Closed && b.failures == 0 && NoSuccess(es)
    requires Run(cfg, b, es).mode == Closed
    ensures Run(cfg, b, es) == b.(failures := Run(cfg, b, es).failures) && Run(cfg, b, es).failures < cfg.threshold
    ensures |Admissions(cfg, b, es)| == InFlight(cfg, b, es, outstanding) - outstanding + Run(cfg, b, es).failures
    decreases |es|
  {
    if es != [] {
      StaysTripped(cfg, b, es);
      LoadWhileClosed(cfg, b, Most(es), outstanding);
    }
  }

  /** Only a success closes the breaker. */
  lemma StaysTripped(cfg: Config, b: Breaker, es: seq<Event>)
    requires es != [] && NoSuccess(es) && Run(cfg, b, es).mode == Closed
    ensures Run(cfg, b, Most(es)).mode == Closed
  {
  }

  lemma {:induction false} RunSplits(cfg: Config, b: Breaker, es: seq<Event>, fs: seq<Event>)
    ensures Run(cfg, b, es + fs) == Run(cfg, Run(cfg, b, es), fs)
    ensures Admissions(cfg, b, es + fs) == Admissions(cfg, b, es) + Admissions(cfg, Run(cfg, b, es), fs)
    decreases |fs|
  {
    if fs == [] {
      assert es + fs == es;
    } else {
      assert Most(es + fs) == es + Most(fs);
      RunSplits(cfg, b, es, Most(fs));
    }
  }

  /** Total load: from a closed breaker with a clear counter, with at most `most` calls in flight and
      no success, admissions number at most threshold - 1 + most, plus one per cooldown after the
      first trip, which is the event at `k`. */
  lemma TotalLoad(cfg: Config, b: Breaker, es: seq<Event>, outstanding: nat, most: int, k: nat, t: real)
    requires b.mode == Closed && b.failures == 0 && !b.probeInFlight && NoSuccess(es) && k < |es|
    requires AtMostInFlight(cfg, b, es, outstanding, most) && Chronological(t, es)
    requires Run(cfg, b, es[..k]).mode == Closed && Run(cfg, b, es[..k + 1]).mode != Closed
    ensures |Admissions(cfg, b, es)|
            <= cfg.threshold - 1 + most + ((Last(es).time - es[k].time) / cfg.cooldown).Floor
  {
    var closed, rest := es[..k + 1], es[k + 1..];
    FirstTrip(cfg, b, es, outstanding, most, k);
    NoSuccessSplits(es, k + 1);
    SuffixChronological(t, es, k + 1);
    LoadAcrossTrip(cfg, b, closed, rest, es[k].time, cfg.threshold - 1 + most);
    assert es == closed + rest;
    assert Latest(es[k].time, rest) == Last(es).time by {
      if rest != [] { assert Last(rest) == Last(es); }
    }
  }

  /** What was let through up to a trip, and what is let through after it. */
  lemma LoadAcrossTrip(cfg: Config, b: Breaker, closed: seq<Event>, rest: seq<Event>, tripped: real, most: int)
    requires Run(cfg, b, closed) == Trip(tripped) && |Admissions(cfg, b, closed)| <= most
    requires Chronological(tripped, rest) && NoSuccess(rest)
    ensures |Admissions(cfg, b, closed + rest)| <= most + ((Latest(tripped, rest) - tripped) / cfg.cooldown).Floor
  {
    RunSplits(cfg, b, closed, rest);
    LoadAfterTrip(cfg, Trip(tripped), rest);
  }

  lemma FirstTrip(cfg: Config, b: Breaker, es: seq<Event>, outstanding: nat, most: int, k: nat)
    requires b.mode == Closed && b.failures == 0 && !b.probeInFlight && NoSuccess(es) && k < |es|
    requires AtMostInFlight(cfg, b, es, outstanding, most)
    requires Run(cfg, b, es[..k]).mode == Closed && Run(cfg, b, es[..k + 1]).mode != Closed
    ensures Run(cfg, b, es[..k + 1]) == Trip(es[k].time)
    ensures |Admissions(cfg, b, es[..k + 1])| <= cfg.threshold - 1 + most
  {
    assert Most(es[..k + 1]) == es[..k] && Last(es[..k + 1]) == es[k];
    NoSuccessSplits(es, k);
    LoadWhileClosed(cfg, b, es[..k], outstanding);
    assert InFlight(cfg, b, es[..k], outstanding) <= most;
  }

  lemma {:induction false} NoSuccessSplits(es: seq<Event>, k: nat)
    requires NoSuccess(es) && k <= |es|
    ensures NoSuccess(es[..k]) && NoSuccess(es[k..])
    decreases |es|
  {
    if k < |es| {
      NoSuccessSplits(Most(es), k);
      assert Most(es)[..k] == es[..k] && Most(es)[k..] == Most(es[k..]);
    } else {
      assert es[..k] == es;
    }
  }

  lemma {:induction false} SuffixChronological(t: real, es: seq<Event>, k: nat)
    requires Chronological(t, es) && 0 < k <= |es|
    ensures Chronological(es[k - 1].time, es[k..])
    decreases |es|
  {
    if k < |es| {
      SuffixChronological(t, Most(es), k);
      assert Most(es)[k..] == Most(es[k..]);
    }
  }

  // ----- retry_after ---------------------------------------------------------------------------

  /** For an open breaker with no records in between, calls are refused until exactly
      `retry_after()` has elapsed and let through from then on. */
  lemma {:induction false} RetryAfterIsExact(cfg: Config, b: Breaker, now: real, asks: seq<Event>, t: real)
    requires b.mode == Open
    requires forall i :: 0 <= i < |asks| ==> asks[i].Asked? && now <= asks[i].time < now + RetryAfter(cfg, b, now)
    ensures Admissions(cfg, b, asks) == [] && Run(cfg, b, asks) == b
    ensures now <= t ==> (Allow(cfg, Run(cfg, b, asks), t).1 <==> now + RetryAfter(cfg, b, now) <= t)
    decreases |asks|
  {
    if asks != [] {
      RetryAfterIsExact(cfg, b, now, Most(asks), t);
      assert Last(asks) == asks[|asks| - 1];
    }
  }

  // ----- what does not hold --------------------------------------------------------------------

  /** So many of the same event. */
  function Repeat(e: Event, n: nat): (es: seq<Event>)
    ensures |es| == n && forall i :: 0 <= i < n ==> es[i] == e
  {
    if n == 0 then [] else Repeat(e, n - 1) + [e]
  }

  lemma {:induction false} InFlightSplits(cfg: Config, b: Breaker, es: seq<Event>, fs: seq<Event>, outstanding: int)
    ensures InFlight(cfg, b, es + fs, outstanding)
            == InFlight(cfg, Run(cfg, b, es), fs, InFlight(cfg, b, es, outstanding))
    decreases |fs|
  {
    if fs == [] {
      assert es + fs == es;
    } else {
      assert Most(es + fs) == es + Most(fs);
      InFlightSplits(cfg, b, es, Most(fs), outstanding);
      RunSplits(cfg, b, es, Most(fs));
    }
  }

  lemma {:induction false} ClosedLetsAllThrough(cfg: Config, b: Breaker, n: nat, outstanding: int)
    requires b.mode == Closed
    ensures Run(cfg, b, Repeat(Asked(0.0), n)) == b
    ensures InFlight(cfg, b, Repeat(Asked(0.0), n), outstanding) == outstanding + n
    ensures Chronological(0.0, Repeat(Asked(0.0), n)) && Latest(0.0, Repeat(Asked(0.0), n)) == 0.0
  {
    if n > 0 {
      ClosedLetsAllThrough(cfg, b, n - 1, outstanding);
      assert Most(Repeat(Asked(0.0), n)) == Repeat(Asked(0.0), n - 1);
    }
  }

  lemma {:induction false} FailuresAdd(cfg: Config, n: nat, outstanding: int)
    requires n <= cfg.threshold
    ensures Run(cfg, FRESH, Repeat(Failed(0.0), n)) == if n == cfg.threshold then Trip(0.0) else FRESH.(failures := n)
    ensures InFlight(cfg, FRESH, Repeat(Failed(0.0), n), outstanding) == outstanding - n
    ensures Chronological(0.0, Repeat(Failed(0.0), n)) && Latest(0.0, Repeat(Failed(0.0), n)) == 0.0
  {
    if n > 0 {
      FailuresAdd(cfg, n - 1, outstanding);
      assert Most(Repeat(Failed(0.0), n)) == Repeat(Failed(0.0), n - 1);
    }
  }

  /** One call more than the threshold is let through, and as many fail as trip the breaker: it is open
      with one call still out. */
  function OneLeftOut(cfg: Config): seq<Event> {
    Repeat(Asked(0.0), cfg.threshold + 1) + Repeat(Failed(0.0), cfg.threshold)
  }

  lemma {:induction false} ChronologicalSplits(t: real, es: seq<Event>, fs: seq<Event>)
    requires Chronological(t, es) && Chronological(Latest(t, es), fs)
    ensures Chronological(t, es + fs) && Latest(t, es + fs) == Latest(Latest(t, es), fs)
    decreases |fs|
  {
    if fs == [] {
      assert es + fs == es;
    } else {
      assert Most(es + fs) == es + Most(fs);
      ChronologicalSplits(t, es, Most(fs));
    }
  }

  lemma OneIsLeftOut(cfg: Config)
    ensures Run(cfg, FRESH, OneLeftOut(cfg)) == Trip(0.0) && InFlight(cfg, FRESH, OneLeftOut(cfg), 0) == 1
    ensures Chronological(0.0, OneLeftOut(cfg)) && Latest(0.0, OneLeftOut(cfg)) == 0.0
  {
    var asks, fails, n := Repeat(Asked(0.0), cfg.threshold + 1), Repeat(Failed(0.0), cfg.threshold), cfg.threshold;
    ClosedLetsAllThrough(cfg, FRESH, n + 1, 0);
    FailuresAdd(cfg, n, n + 1);
    RunSplits(cfg, FRESH, asks, fails);
    InFlightSplits(cfg, FRESH, asks, fails, 0);
    ChronologicalSplits(0.0, asks, fails);
  }

  /** One step of a run, with what it does to the calls in flight. */
  lemma OneMore(cfg: Config, es: seq<Event>, e: Event)
    ensures Run(cfg, FRESH, es + [e]) == Apply(cfg, Run(cfg, FRESH, es), e)
    ensures InFlight(cfg, FRESH, es + [e], 0)
            == InFlight(cfg, FRESH, es, 0)
               + (if e.Asked? then (if Allow(cfg, Run(cfg, FRESH, es), e.time).1 then 1 else 0) else -1)
    ensures Chronological(0.0, es) && Latest(0.0, es) <= e.time
            ==> Chronological(0.0, es + [e]) && Latest(0.0, es + [e]) == e.time
  {
    assert Most(es + [e]) == es;
  }

  /** A late success, of a call let through before the trip, closes an open breaker at once, whatever the
      configuration: the cooldown is not waited for. */
  lemma LateSuccessCloses(cfg: Config)
    ensures Run(cfg, FRESH, OneLeftOut(cfg)).mode == Open && InFlight(cfg, FRESH, OneLeftOut(cfg), 0) == 1
    ensures Chronological(0.0, OneLeftOut(cfg) + [Succeeded(0.0)])
    ensures Run(cfg, FRESH, OneLeftOut(cfg) + [Succeeded(0.0)]).mode == Closed
  {
    OneIsLeftOut(cfg);
    OneMore(cfg, OneLeftOut(cfg), Succeeded(0.0));
  }
}
