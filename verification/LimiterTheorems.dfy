/** What the full-history limiter guarantees: the window bound at every point of time, isolation of
    keys, exactness of `retry_after`, and optimality among all schedules that keep the bound. */
module LimiterTheorems {
  import opened Basics
  import opened RateLimiting

  // ----- windows ---------------------------------------------------------------------------

  lemma {:induction false} WithinBounds(times: seq<real>, lo: real, hi: real)
    requires Sorted(times)
    ensures var r := Within(times, lo, hi);
            |r| <= |times| && Sorted(r) && forall i :: 0 <= i < |r| ==> lo < r[i] <= hi && times[0] <= r[i]
  {
    if times != [] {
      WithinBounds(times[1..], lo, hi);
    }
  }

  /** Looking through a narrower window at what a wider one shows. */
  lemma {:induction false} WithinTwice(times: seq<real>, lo: real, hi: real, lo': real, hi': real)
    requires forall i :: 0 <= i < |times| ==> (lo' < times[i] <= hi' ==> lo < times[i] <= hi)
    ensures Within(Within(times, lo, hi), lo', hi') == Within(times, lo', hi')
    ensures |Within(times, lo', hi')| <= |Within(times, lo, hi)|
  {
    if times != [] {
      WithinTwice(times[1..], lo, hi, lo', hi');
      var head := if lo < times[0] <= hi then [times[0]] else [];
      WithinConcat(head, Within(times[1..], lo, hi), lo', hi');
    }
  }

  /** How many of these times fall in the half-open window of this width that ends at `t`. */
  function Load(times: seq<real>, width: real, t: real): nat {
    |Within(times, t - width, t)|
  }

  /** One more admission never overfills a window that was within the quota. */
  lemma AdmissionFits(cfg: Config, prior: seq<real>, now: real, t: real)
    requires (forall i :: 0 <= i < |prior| ==> prior[i] <= now) && Decide(cfg, prior, now).Allowed?
    requires Load(prior, cfg.window, t) <= cfg.maxRequests
    ensures Load(prior + [now], cfg.window, t) <= cfg.maxRequests
  {
    WithinConcat(prior, [now], t - cfg.window, t);
    if t - cfg.window < now <= t {
      WithinTwice(prior, now - cfg.window, now, t - cfg.window, t);
    }
  }

  /** No half-open window of the quota's length, wherever on the time line it ends, holds more
      admitted checks of a key than the quota. */
  lemma {:induction false} WindowBound(cfg: Config, checks: seq<Arrival>, key: Text, t: real)
    requires Chronological(checks)
    ensures Load(Admitted(cfg, checks, key), cfg.window, t) <= cfg.maxRequests
  {
    if checks != [] {
      var prior, c := Admitted(cfg, Before(checks), key), Last(checks);
      WindowBound(cfg, Before(checks), key, t);
      AdmittedIsSorted(cfg, Before(checks), key);
      if c.key == key && Decide(cfg, prior, c.time).Allowed? {
        AdmissionFits(cfg, prior, c.time, t);
      }
    }
  }

  /** So many checks of a key at one time. */
  function AtOnce(key: Text, time: real, n: nat): seq<Arrival> {
    if n == 0 then [] else AtOnce(key, time, n - 1) + [Arrival(key, time)]
  }

  function Same(time: real, n: nat): (r: seq<real>)
    ensures |r| == n && forall i :: 0 <= i < n ==> r[i] == time
  {
    if n == 0 then [] else Same(time, n - 1) + [time]
  }

  lemma SameHasRoom(cfg: Config, time: real, n: nat)
    requires n < cfg.maxRequests
    ensures Decide(cfg, Same(time, n), time).Allowed?
  {
    WithinBounds(Same(time, n), time - cfg.window, time);
  }

  /** All at once, up to this time. */
  ghost predicate Burst(cfg: Config, checks: seq<Arrival>, key: Text, time: real, n: nat) {
    && Admitted(cfg, checks, key) == Same(time, n)
    && Chronological(checks) && (checks != [] ==> Last(checks).time == time)
  }

  lemma BurstGoesOn(cfg: Config, checks: seq<Arrival>, key: Text, time: real, n: nat)
    requires Burst(cfg, checks, key, time, n) && n < cfg.maxRequests
    ensures Burst(cfg, checks + [Arrival(key, time)], key, time, n + 1)
  {
    SameHasRoom(cfg, time, n);
    AdmittedNext(cfg, checks, Arrival(key, time), key);
    ChronologicalNext(checks, Arrival(key, time));
  }

  /** A fresh window takes as many checks as the quota, all at once. */
  lemma {:induction false} BurstIsAdmitted(cfg: Config, key: Text, time: real, n: nat)
    requires n <= cfg.maxRequests
    ensures Burst(cfg, AtOnce(key, time, n), key, time, n)
  {
    if n > 0 {
      BurstIsAdmitted(cfg, key, time, n - 1);
      BurstGoesOn(cfg, AtOnce(key, time, n - 1), key, time, n - 1);
    }
  }

  /** The window has to be half-open: a closed one can hold more, whatever the configuration. A check
      exactly one window length after a burst that fills the quota is admitted. */
  lemma ClosedWindowHoldsMore(cfg: Config, key: Text)
    ensures var checks := AtOnce(key, 0.0, cfg.maxRequests) + [Arrival(key, cfg.window)];
            Chronological(checks) && Admitted(cfg, checks, key) == Same(0.0, cfg.maxRequests) + [cfg.window]
  {
    var burst, last := AtOnce(key, 0.0, cfg.maxRequests), Arrival(key, cfg.window);
    BurstIsAdmitted(cfg, key, 0.0, cfg.maxRequests);
    AdmittedNext(cfg, burst, last, key);
    ChronologicalNext(burst, last);
    WithinNone(Same(0.0, cfg.maxRequests), 0.0, cfg.window);
  }

  /** How many of these times fall in the closed window from `lo` to `hi`. */
  function Held(times: seq<real>, lo: real, hi: real): nat {
    if times == [] then 0 else
      Held(times[..|times| - 1], lo, hi) + (if lo <= times[|times| - 1] <= hi then 1 else 0)
  }

  lemma {:induction false} HeldAtMost(times: seq<real>, lo: real, hi: real, k: nat)
    requires k <= |times| && forall i :: 0 <= i < k ==> times[i] < lo
    ensures Held(times, lo, hi) <= |times| - k
  {
    if times != [] {
      var n := |times| - 1;
      HeldAtMost(times[..n], lo, hi, if k <= n then k else n);
    }
  }

  /** More than `m` sorted times in a closed window: some `m` positions apart both lie in it. */
  lemma {:induction false} HeldIsSpread(times: seq<real>, lo: real, hi: real, m: nat) returns (i: nat)
    requires Sorted(times) && Held(times, lo, hi) > m
    ensures i + m < |times| && lo <= times[i] && times[i + m] <= hi
  {
    var n := |times| - 1;
    if times[n] <= hi {
      HeldAtMost(times, lo, hi, 0);
      i := n - m;
      if times[i] < lo {
        HeldAtMost(times, lo, hi, i + 1);
        assert false;
      }
    } else {
      i := HeldIsSpread(times[..n], lo, hi, m);
    }
  }

  lemma {:induction false} SpreadIsHeld(times: seq<real>, lo: real, hi: real, i: nat, m: nat)
    requires Sorted(times) && i + m < |times| && lo <= times[i] && times[i + m] <= hi
    ensures Held(times, lo, hi) > m
    decreases |times|
  {
    var n := |times| - 1;
    if i + m < n {
      SpreadIsHeld(times[..n], lo, hi, i, m);
    } else if m > 0 {
      SpreadIsHeld(times[..n], lo, hi, i, m - 1);
    }
  }

  /** Half-open windows hold at most the quota, so that many positions lie a window apart or more. */
  lemma QuotaApart(cfg: Config, checks: seq<Arrival>, key: Text, i: nat)
    requires Chronological(checks) && i + cfg.maxRequests < |Admitted(cfg, checks, key)|
    ensures var a := Admitted(cfg, checks, key); a[i + cfg.maxRequests] - a[i] >= cfg.window
  {
    var a, k := Admitted(cfg, checks, key), i + cfg.maxRequests;
    AdmittedIsSorted(cfg, checks, key);
    WindowBound(cfg, checks, key, a[k]);
    if a[k] - a[i] < cfg.window {
      SpreadIsSeen(a, a[k] - cfg.window, a[k], i, cfg.maxRequests);
      assert false;
    }
  }

  lemma {:induction false} SpreadIsSeen(times: seq<real>, lo: real, hi: real, i: nat, m: nat)
    requires Sorted(times) && i + m < |times| && lo < times[i] && times[i + m] <= hi
    ensures |Within(times, lo, hi)| > m
    decreases i + m
  {
    if i > 0 {
      SpreadIsSeen(times[1..], lo, hi, i - 1, m);
    } else if m > 0 {
      SpreadIsSeen(times[1..], lo, hi, 0, m - 1);
    }
  }

  /** The closed window of the quota's length that ends at `t` holds more than the quota. */
  predicate Overfull(cfg: Config, times: seq<real>, t: real) { Held(times, t - cfg.window, t) > cfg.maxRequests }

  /** From this time to the one the quota's number of positions later is exactly one window. */
  predicate WindowApart(cfg: Config, times: seq<real>, i: nat) {
    i + cfg.maxRequests < |times| && times[i + cfg.maxRequests] - times[i] == cfg.window
  }

  lemma OverfullIsApart(cfg: Config, checks: seq<Arrival>, key: Text, t: real) returns (i: nat)
    requires Chronological(checks) && Overfull(cfg, Admitted(cfg, checks, key), t)
    ensures WindowApart(cfg, Admitted(cfg, checks, key), i)
  {
    AdmittedIsSorted(cfg, checks, key);
    i := HeldIsSpread(Admitted(cfg, checks, key), t - cfg.window, t, cfg.maxRequests);
    QuotaApart(cfg, checks, key, i);
  }

  lemma ApartIsOverfull(cfg: Config, times: seq<real>, i: nat)
    requires Sorted(times) && WindowApart(cfg, times, i)
    ensures Overfull(cfg, times, times[i + cfg.maxRequests])
  {
    SpreadIsHeld(times, times[i], times[i + cfg.maxRequests], i, cfg.maxRequests);
  }

  /** Some closed window of the quota's length holds more than the quota exactly if two admitted checks,
      with the quota between them in number, are exactly one window apart. */
  lemma ClosedWindowOverfull(cfg: Config, checks: seq<Arrival>, key: Text)
    requires Chronological(checks)
    ensures var a := Admitted(cfg, checks, key);
            (exists t :: Overfull(cfg, a, t)) <==> exists i: nat :: WindowApart(cfg, a, i)
  {
    var a := Admitted(cfg, checks, key);
    if t :| Overfull(cfg, a, t) {
      var i := OverfullIsApart(cfg, checks, key, t);
    }
    if i: nat :| WindowApart(cfg, a, i) {
      AdmittedIsSorted(cfg, checks, key);
      ApartIsOverfull(cfg, a, i);
    }
  }

  // ----- isolation of keys -----------------------------------------------------------------

  function OfKey(checks: seq<Arrival>, key: Text): seq<Arrival> {
    if checks == [] then [] else
      OfKey(Before(checks), key) + (if Last(checks).key == key then [Last(checks)] else [])
  }

  /** What other keys do never changes what is admitted for this one. */
  lemma {:induction false} KeysAreIsolated(cfg: Config, checks: seq<Arrival>, key: Text)
    ensures Admitted(cfg, checks, key) == Admitted(cfg, OfKey(checks, key), key)
  {
    if checks != [] {
      KeysAreIsolated(cfg, Before(checks), key);
      var mine := OfKey(Before(checks), key);
      if Last(checks).key == key {
        assert Before(mine + [Last(checks)]) == mine;
      } else {
        assert OfKey(checks, key) == mine;
      }
    }
  }

  // ----- retry_after -----------------------------------------------------------------------

  lemma ChronologicalPrefix(checks: seq<Arrival>, i: nat)
    requires Chronological(checks) && i <= |checks|
    ensures Chronological(checks[..i])
    decreases |checks|
  {
    if i < |checks| {
      assert checks[..i] == Before(checks)[..i];
      ChronologicalPrefix(Before(checks), i);
    } else {
      assert checks[..i] == checks;
    }
  }

  lemma ChronologicalAt(checks: seq<Arrival>, i: nat, j: nat)
    requires Chronological(checks) && i <= j < |checks|
    ensures checks[i].time <= checks[j].time
    decreases |checks|
  {
    if j < |checks| - 1 {
      ChronologicalAt(Before(checks), i, j);
    } else if i < j {
      ChronologicalAt(Before(checks), i, j - 1);
    }
  }

  /** At a refusal the window is full, and its oldest hit decides when it stops being full. */
  lemma FullWindow(cfg: Config, checks: seq<Arrival>, key: Text, now: real, later: real)
    requires Chronological(checks) && (checks != [] ==> Last(checks).time <= now) && now <= later
    requires Decide(cfg, Admitted(cfg, checks, key), now).Refused?
    ensures var r := Decide(cfg, Admitted(cfg, checks, key), now).retryAfter;
            && 0.0 < r <= cfg.window
            && (Decide(cfg, Admitted(cfg, checks, key), later).Allowed? <==> now + r <= later)
  {
    var all := Admitted(cfg, checks, key);
    AdmittedIsSorted(cfg, checks, key);
    WindowBound(cfg, checks, key, now);
    FullWindowOf(cfg, all, now, later);
  }

  lemma FullWindowOf(cfg: Config, all: seq<real>, now: real, later: real)
    requires SortedUpTo(all, now) && now <= later
    requires Load(all, cfg.window, now) <= cfg.maxRequests && Decide(cfg, all, now).Refused?
    ensures var r := Decide(cfg, all, now).retryAfter;
            && 0.0 < r <= cfg.window
            && (Decide(cfg, all, later).Allowed? <==> now + r <= later)
  {
    var full := Within(all, now - cfg.window, now);
    var rest := Within(all, later - cfg.window, later);
    WithinBounds(all, now - cfg.window, now);
    assert Within(full, later - cfg.window, later) == rest by {
      WithinTwice(all, now - cfg.window, now, later - cfg.window, later);
    }
    WindowMovesOn(full, later - cfg.window, later);
  }

  /** A window full of sorted times loses one exactly when it moves past the oldest. */
  lemma WindowMovesOn(full: seq<real>, lo: real, hi: real)
    requires Sorted(full) && full != [] && (forall i :: 0 <= i < |full| ==> full[i] <= hi)
    ensures |Within(full, lo, hi)| <= |full|
    ensures |Within(full, lo, hi)| < |full| <==> full[0] <= lo
  {
    WithinBounds(full, lo, hi);
    if lo < full[0] {
      WithinAll(full, lo, hi);
    } else {
      WithinBounds(full[1..], lo, hi);
    }
  }

  /** A check refused now is refused again before its wait is over, if nothing was admitted meanwhile. */
  lemma EarlyCheckRefused(cfg: Config, checks: seq<Arrival>, i: nat, j: nat)
    requires Chronological(checks) && i < j < |checks| && AnswerTo(cfg, checks, i).Refused?
    requires checks[j].key == checks[i].key && checks[j].time < checks[i].time + AnswerTo(cfg, checks, i).retryAfter
    ensures Decide(cfg, Admitted(cfg, checks[..i], checks[i].key), checks[j].time).Refused?
  {
    ChronologicalPrefix(checks, i);
    ChronologicalAt(checks, i, j);
    LastOfPrefix(checks, i);
    FullWindow(cfg, checks[..i], checks[i].key, checks[i].time, checks[j].time);
  }

  lemma LastOfPrefix(checks: seq<Arrival>, i: nat)
    requires Chronological(checks) && i < |checks|
    ensures i > 0 ==> checks[..i] != [] && Last(checks[..i]).time <= checks[i].time
  {
    if i > 0 {
      ChronologicalAt(checks, i - 1, i);
      assert Last(checks[..i]) == checks[i - 1];
    }
  }

  lemma AdmittedUpTo(cfg: Config, checks: seq<Arrival>, j: nat, key: Text)
    requires j < |checks|
    ensures Admitted(cfg, checks[..j + 1], key)
            == if checks[j].key == key && Decide(cfg, Admitted(cfg, checks[..j], key), checks[j].time).Allowed?
               then Admitted(cfg, checks[..j], key) + [checks[j].time] else Admitted(cfg, checks[..j], key)
  {
    assert checks[..j + 1] == checks[..j] + [checks[j]];
    AdmittedNext(cfg, checks[..j], checks[j], key);
  }

  /** Checks of the key that come too early leave its admitted checks as they are. */
  lemma {:induction false} EarlyChecksRefused(cfg: Config, checks: seq<Arrival>, i: nat, j: nat)
    requires Chronological(checks) && i < j <= |checks| && AnswerTo(cfg, checks, i).Refused?
    requires forall l :: i < l < j && checks[l].key == checks[i].key
                         ==> checks[l].time < checks[i].time + AnswerTo(cfg, checks, i).retryAfter
    ensures Admitted(cfg, checks[..j], checks[i].key) == Admitted(cfg, checks[..i], checks[i].key)
    decreases j
  {
    AdmittedUpTo(cfg, checks, j - 1, checks[i].key);
    if j > i + 1 {
      EarlyChecksRefused(cfg, checks, i, j - 1);
      if checks[j - 1].key == checks[i].key {
        EarlyCheckRefused(cfg, checks, i, j - 1);
      }
    }
  }

  /** `retry_after` is exact: every later check of the key before that long is refused, however
      many are made, and the first one at or after it is admitted. */
  lemma {:induction false} RetryAfterIsExact(cfg: Config, checks: seq<Arrival>, i: nat, j: nat)
    requires Chronological(checks) && i < j < |checks| && checks[j].key == checks[i].key
    requires AnswerTo(cfg, checks, i).Refused?
    ensures var r := AnswerTo(cfg, checks, i).retryAfter;
            && 0.0 < r <= cfg.window
            && (checks[j].time < checks[i].time + r ==> AnswerTo(cfg, checks, j).Refused?)
            && ((&& checks[i].time + r <= checks[j].time
                 && forall l :: i < l < j && checks[l].key == checks[i].key ==> checks[l].time < checks[i].time + r)
                ==> AnswerTo(cfg, checks, j).Allowed?)
  {
    var r, key := AnswerTo(cfg, checks, i).retryAfter, checks[i].key;
    ChronologicalPrefix(checks, i);
    ChronologicalAt(checks, i, j);
    LastOfPrefix(checks, i);
    FullWindow(cfg, checks[..i], key, checks[i].time, checks[j].time);
    if checks[j].time < checks[i].time + r {
      forall l | i < l < j ensures checks[l].time < checks[i].time + r {
        ChronologicalAt(checks, l, j);
      }
      EarlyChecksRefused(cfg, checks, i, j);
    } else if forall l :: i < l < j && checks[l].key == key ==> checks[l].time < checks[i].time + r {
      EarlyChecksRefused(cfg, checks, i, j);
    }
  }

  // ----- optimality ------------------------------------------------------------------------

  /** The positions of the admitted checks of a key. */
  function AdmittedAt(cfg: Config, checks: seq<Arrival>, key: Text): seq<nat> {
    if checks == [] then [] else
      var prior := AdmittedAt(cfg, Before(checks), key);
      var c := Last(checks);
      if c.key == key && Decide(cfg, Admitted(cfg, Before(checks), key), c.time).Allowed?
      then prior + [|checks| - 1] else prior
  }

  /** A selection of arrivals of one key, in order. */
  ghost predicate Selection(checks: seq<Arrival>, key: Text, chosen: seq<nat>) {
    && (forall i :: 0 <= i < |chosen| ==> chosen[i] < |checks| && checks[chosen[i]].key == key)
    && (forall i, j :: 0 <= i < j < |chosen| ==> chosen[i] < chosen[j])
  }

  function TimesOf(checks: seq<Arrival>, chosen: seq<nat>): (r: seq<real>)
    requires forall i :: 0 <= i < |chosen| ==> chosen[i] < |checks|
    ensures |r| == |chosen| && forall i :: 0 <= i < |r| ==> r[i] == checks[chosen[i]].time
  {
    seq(|chosen|, i requires 0 <= i < |chosen| => checks[chosen[i]].time)
  }

  /** A selection that any limiter with this quota might have admitted. */
  ghost predicate KeepsQuota(cfg: Config, times: seq<real>) {
    forall t :: Load(times, cfg.window, t) <= cfg.maxRequests
  }

  lemma {:induction false} AdmittedAtSelects(cfg: Config, checks: seq<Arrival>, key: Text)
    ensures Selection(checks, key, AdmittedAt(cfg, checks, key))
    ensures TimesOf(checks, AdmittedAt(cfg, checks, key)) == Admitted(cfg, checks, key)
  {
    if checks != [] {
      AdmittedAtSelects(cfg, Before(checks), key);
    }
  }

  lemma SelectionSorted(checks: seq<Arrival>, key: Text, chosen: seq<nat>)
    requires Chronological(checks) && Selection(checks, key, chosen)
    ensures Sorted(TimesOf(checks, chosen))
  {
    forall i, j | 0 <= i < j < |chosen| ensures checks[chosen[i]].time <= checks[chosen[j]].time {
      ChronologicalAt(checks, chosen[i], chosen[j]);
    }
  }

  /** If the last `n` of some sorted times were all in the window, the window would hold them. */
  lemma WindowHolds(times: seq<real>, p: nat, lo: real, hi: real)
    requires Sorted(times) && p < |times| && lo < times[p] && times[|times| - 1] <= hi
    ensures |Within(times, lo, hi)| >= |times| - p
  {
    var head, tail := times[..p], times[p..];
    assert times == head + tail;
    WithinConcat(head, tail, lo, hi);
    TailWithin(times, p, lo, hi);
    WithinAll(tail, lo, hi);
  }

  lemma TailWithin(times: seq<real>, p: nat, lo: real, hi: real)
    requires Sorted(times) && p < |times| && lo < times[p] && times[|times| - 1] <= hi
    ensures forall i :: 0 <= i < |times[p..]| ==> lo < times[p..][i] <= hi
  {
    forall i | 0 <= i < |times[p..]| ensures lo < times[p..][i] <= hi {
      assert times[p..][i] == times[p + i];
      assert times[p] <= times[p + i] && times[p + i] <= times[|times| - 1];
    }
  }

  lemma WindowMisses(times: seq<real>, p: nat, lo: real, hi: real)
    requires Sorted(times) && p < |times| && times[p] <= lo
    ensures |Within(times, lo, hi)| <= |times| - p - 1
  {
    assert times == times[..p + 1] + times[p + 1..];
    WithinConcat(times[..p + 1], times[p + 1..], lo, hi);
    WithinNone(times[..p + 1], lo, hi);
    WithinBounds(times[p + 1..], lo, hi);
  }

  /** If another selection gets as far as the limiter and takes this arrival, so does the limiter. */
  lemma GreedyTakesIt(cfg: Config, greedy: seq<real>, other: seq<real>, now: real)
    requires Sorted(greedy) && Sorted(other + [now]) && |greedy| == |other|
    requires forall i :: 0 <= i < |greedy| ==> greedy[i] <= other[i]
    requires KeepsQuota(cfg, other + [now])
    ensures Decide(cfg, greedy, now).Allowed?
  {
    var m := |greedy|;
    WithinBounds(greedy, now - cfg.window, now);
    if cfg.maxRequests <= m {
      var p := m - cfg.maxRequests;
      assert Load(other + [now], cfg.window, now) <= cfg.maxRequests;
      if now - cfg.window < (other + [now])[p] {
        WindowHolds(other + [now], p, now - cfg.window, now);
      }
      WindowMisses(greedy, p, now - cfg.window, now);
    }
  }

  /** Ahead position by position, and at least as many. */
  ghost predicate Ahead(mine: seq<nat>, other: seq<nat>) {
    |other| <= |mine| && forall i :: 0 <= i < |other| ==> mine[i] <= other[i]
  }

  /** Optimality: the limiter admits at least as many arrivals of a key as any selection of them
      that keeps the quota, and its i-th admission is never later than theirs. */
  lemma {:induction false} GreedyStaysAhead(cfg: Config, checks: seq<Arrival>, key: Text, other: seq<nat>)
    requires Chronological(checks) && Selection(checks, key, other) && KeepsQuota(cfg, TimesOf(checks, other))
    ensures Ahead(AdmittedAt(cfg, checks, key), other)
    decreases |checks|
  {
    if checks == [] {
      NothingToSelect(key, other);
    } else if other == [] || other[|other| - 1] < |checks| - 1 {
      WithoutLast(cfg, checks, key, other);
      GreedyStaysAhead(cfg, Before(checks), key, other);
    } else {
      AllButLast(cfg, checks, key, other);
      GreedyStaysAhead(cfg, Before(checks), key, other[..|other| - 1]);
      StillAhead(cfg, checks, key, other);
    }
  }

  lemma WithoutLast(cfg: Config, checks: seq<Arrival>, key: Text, other: seq<nat>)
    requires checks != [] && Selection(checks, key, other) && KeepsQuota(cfg, TimesOf(checks, other))
    requires other == [] || other[|other| - 1] < |checks| - 1
    ensures Selection(Before(checks), key, other) && KeepsQuota(cfg, TimesOf(Before(checks), other))
  {
    assert forall i :: 0 <= i < |other| ==> other[i] < |Before(checks)|;
    assert TimesOf(Before(checks), other) == TimesOf(checks, other);
  }

  lemma AdmittedAtGrows(cfg: Config, checks: seq<Arrival>, key: Text)
    requires checks != []
    ensures var greedy := AdmittedAt(cfg, Before(checks), key);
            AdmittedAt(cfg, checks, key) == greedy || AdmittedAt(cfg, checks, key) == greedy + [|checks| - 1]
    ensures forall i :: 0 <= i < |AdmittedAt(cfg, Before(checks), key)|
              ==> AdmittedAt(cfg, Before(checks), key)[i] < |checks| - 1
  {
    AdmittedAtSelects(cfg, Before(checks), key);
  }

  /** Ahead before the last arrival means ahead after it, which the other selection takes. */
  lemma StillAhead(cfg: Config, checks: seq<Arrival>, key: Text, other: seq<nat>)
    requires Chronological(checks) && Selection(checks, key, other) && KeepsQuota(cfg, TimesOf(checks, other))
    requires checks != [] && other != [] && other[|other| - 1] == |checks| - 1
    requires Ahead(AdmittedAt(cfg, Before(checks), key), other[..|other| - 1])
    ensures Ahead(AdmittedAt(cfg, checks, key), other)
  {
    AdmittedAtGrows(cfg, checks, key);
    if |AdmittedAt(cfg, Before(checks), key)| == |other| - 1 {
      BothTakeLast(cfg, checks, key, other);
    }
    AheadByOne(AdmittedAt(cfg, Before(checks), key), AdmittedAt(cfg, checks, key), other, |checks| - 1);
  }

  lemma AheadByOne(greedy: seq<nat>, mine: seq<nat>, other: seq<nat>, n: nat)
    requires other != [] && other[|other| - 1] == n && Ahead(greedy, other[..|other| - 1])
    requires mine == greedy + [n] || (mine == greedy && |greedy| != |other| - 1)
    requires forall i :: 0 <= i < |greedy| ==> greedy[i] < n
    ensures Ahead(mine, other)
  {
    forall i | 0 <= i < |other| ensures mine[i] <= other[i] {
      if i < |other| - 1 {
        assert greedy[i] <= other[..|other| - 1][i];
      }
    }
  }

  lemma NothingToSelect(key: Text, chosen: seq<nat>)
    ensures Selection([], key, chosen) ==> chosen == []
  {
    assert chosen != [] ==> chosen[0] >= 0;
  }

  lemma AllButLast(cfg: Config, checks: seq<Arrival>, key: Text, other: seq<nat>)
    requires Selection(checks, key, other) && KeepsQuota(cfg, TimesOf(checks, other))
    requires other != [] && other[|other| - 1] == |checks| - 1
    ensures var rest := other[..|other| - 1];
            && Selection(Before(checks), key, rest)
            && TimesOf(checks, other) == TimesOf(Before(checks), rest) + [Last(checks).time]
            && KeepsQuota(cfg, TimesOf(Before(checks), rest))
  {
    var times := TimesOf(Before(checks), other[..|other| - 1]);
    assert TimesOf(checks, other) == times + [Last(checks).time];
    forall t ensures Load(times, cfg.window, t) <= cfg.maxRequests {
      assert Load(TimesOf(checks, other), cfg.window, t) <= cfg.maxRequests;
      WithinConcat(times, [Last(checks).time], t - cfg.window, t);
    }
  }

  lemma BothTakeLast(cfg: Config, checks: seq<Arrival>, key: Text, other: seq<nat>)
    requires Chronological(checks) && Selection(checks, key, other) && KeepsQuota(cfg, TimesOf(checks, other))
    requires other != [] && other[|other| - 1] == |checks| - 1
    requires var greedy := AdmittedAt(cfg, Before(checks), key);
             |greedy| == |other| - 1 && Ahead(greedy, other[..|other| - 1])
    ensures AdmittedAt(cfg, checks, key) == AdmittedAt(cfg, Before(checks), key) + [|checks| - 1]
  {
    var prior, rest := Before(checks), other[..|other| - 1];
    var greedy, times := AdmittedAt(cfg, prior, key), TimesOf(prior, rest);
    AdmittedAtSelects(cfg, prior, key);
    AllButLast(cfg, checks, key, other);
    SelectionSorted(checks, key, other);
    SelectionSorted(prior, key, greedy);
    forall i | 0 <= i < |greedy| ensures Admitted(cfg, prior, key)[i] <= times[i] {
      ChronologicalAt(prior, greedy[i], rest[i]);
    }
    GreedyTakesIt(cfg, Admitted(cfg, prior, key), times, Last(checks).time);
  }
}
