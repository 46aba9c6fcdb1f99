/** How much load a failing tool gets in a run, in terms of the suspended requests and the clock. */
module RunLoads {
  import opened Basics
  import opened Gateway
  import opened GatewayRuns
  import opened RunBreakers
  import opened RunTheorems
  import Breaking = CircuitBreaking
  import History = BreakerTheorems

  // ----- the history of one tool as the run goes on --------------------------------------------

  function TraceAt(w: World, tool: Text): seq<History.Event> { Pick(w.log, TraceOf(tool)) }

  lemma PickOne<T>(e: Event, f: Event -> Option<T>)
    ensures Pick([e], f) == Found(f(e))
  {
    PickNext([], e, f);
    assert [] + [e] == [e];
  }

  lemma PickNone<T>(es: seq<Event>, f: Event -> Option<T>)
    requires Blind(es, f)
    ensures Pick(es, f) == []
  {
    PickNothing([], es, f);
    assert [] + es == es;
  }

  /** What the first events of a step say about one tool. */
  lemma FirstTrace(p: Policy, w: World, now: real, s: Shape, tool: Text)
    ensures var more := Pick(FirstEvents(p, w.core.tables.pins, now, s), TraceOf(tool));
            |more| <= 1 && (more != [] ==> more[0].time == now)
  {
    var first := FirstEvents(p, w.core.tables.pins, now, s);
    EventKinds(p, w.core.tables.pins, now, s);
    if s.Calls? || s.Reports? || (s.DeniesCall? && s.asked) {
      PickOne(first[0], TraceOf(tool));
    } else {
      PickNone(first, TraceOf(tool));
    }
  }

  /** The last events of a step say nothing about the history of a tool. */
  lemma LastIsBlind(p: Policy, w: World, now: real, s: Shape, tool: Text)
    ensures Blind(LastEvents(s), TraceOf(tool))
  {
    EventKinds(p, w.core.tables.pins, now, s);
  }

  /** A step adds at most one event to the history of a tool. */
  lemma OneEventAStep(p: Policy, w: World, after: World, s: Shape, tool: Text) returns (more: seq<History.Event>)
    requires LogMoves(p, w, after, s)
    ensures |more| <= 1 && TraceAt(after, tool) == TraceAt(w, tool) + more && (more != [] ==> more[0].time == after.now)
  {
    var first := FirstEvents(p, w.core.tables.pins, after.now, s);
    more := Pick(first, TraceOf(tool));
    FirstTrace(p, w, after.now, s, tool);
    PickConcat(w.log, first, TraceOf(tool));
    LastIsBlind(p, w, after.now, s, tool);
    PickNothing(w.log + first, LastEvents(s), TraceOf(tool));
  }

  lemma {:induction false} LogGrows(p: Policy, r: Behaviour, j: nat, n: nat)
    requires IsRun(p, r) && j <= n < |r.worlds|
    ensures r.worlds[j].log <= r.worlds[n].log
    decreases n
  {
    if j < n {
      LogGrows(p, r, j, n - 1);
      LogGrowsNext(p, r, n);
    }
  }

  lemma LogGrowsNext(p: Policy, r: Behaviour, n: nat)
    requires IsRun(p, r) && 0 < n < |r.worlds|
    ensures r.worlds[n - 1].log <= r.worlds[n].log
  {
    var s := ShapeBefore(p, r, n);
  }

  lemma TraceGrows(p: Policy, r: Behaviour, n: nat, tool: Text) returns (more: seq<History.Event>)
    requires IsRun(p, r) && 0 < n < |r.worlds|
    ensures |more| <= 1 && TraceAt(r.worlds[n], tool) == TraceAt(r.worlds[n - 1], tool) + more
    ensures more != [] ==> more[0].time == r.worlds[n].now
  {
    var s := ShapeBefore(p, r, n);
    more := OneEventAStep(p, r.worlds[n - 1], r.worlds[n], s, tool);
  }

  /** The part of the record after world `j`. */
  function Since(r: Behaviour, j: nat, n: nat): seq<Event>
    requires j < |r.worlds| && n < |r.worlds|
  {
    After(r.worlds[j].log, r.worlds[n].log)
  }

  function After(some: seq<Event>, log: seq<Event>): seq<Event> {
    if |some| <= |log| then log[|some|..] else []
  }

  lemma PickAfter<T>(some: seq<Event>, log: seq<Event>, f: Event -> Option<T>)
    requires some <= log
    ensures Pick(log, f) == Pick(some, f) + Pick(After(some, log), f)
  {
    PickConcat(some, After(some, log), f);
    assert some + After(some, log) == log;
  }

  lemma PickSince<T>(p: Policy, r: Behaviour, j: nat, n: nat, f: Event -> Option<T>)
    requires IsRun(p, r) && j <= n < |r.worlds|
    ensures Pick(r.worlds[n].log, f) == Pick(r.worlds[j].log, f) + Pick(Since(r, j, n), f)
  {
    LogGrows(p, r, j, n);
    PickAfter(r.worlds[j].log, r.worlds[n].log, f);
  }

  /** No report of a success of this tool. */
  ghost predicate NoneSucceeds(es: seq<Event>, tool: Text) {
    forall i :: 0 <= i < |es| && es[i].Told? && es[i].tool == tool ==> !es[i].ok
  }

  lemma {:induction false} NoneSucceedsIn(es: seq<Event>, tool: Text)
    requires NoneSucceeds(es, tool)
    ensures History.NoSuccess(Pick(es, TraceOf(tool)))
  {
    if es != [] {
      var most, e := es[..|es| - 1], es[|es| - 1];
      NoneSucceedsIn(most, tool);
      assert e.Told? && e.tool == tool ==> !es[|es| - 1].ok;
      NoSuccessNext(Pick(most, TraceOf(tool)), Found(TraceOf(tool)(e)));
    }
  }

  lemma NoSuccessNext(es: seq<History.Event>, next: seq<History.Event>)
    requires History.NoSuccess(es) && |next| <= 1 && (next != [] ==> !next[0].Succeeded?)
    ensures History.NoSuccess(es + next)
  {
    if next == [] {
      assert es + next == es;
    } else {
      assert History.Most(es + next) == es;
    }
  }

  // ----- the number of calls out at once -------------------------------------------------------

  /** The requests suspended at the upstream call of this tool, and those whose report was lost. */
  function OutAt(w: World, tool: Text): nat { |Suspended(w.requests, tool)| + |Pick(w.log, LostOf(tool))| }

  /** Never more than `most` of them up to world `n`. */
  ghost predicate AtMostOut(r: Behaviour, n: nat, tool: Text, most: nat)
    requires n < |r.worlds|
  {
    forall i {:trigger OutAt(r.worlds[i], tool)} :: 0 <= i <= n ==> OutAt(r.worlds[i], tool) <= most
  }

  lemma AtMostNext(cfg: Breaking.Config, es: seq<History.Event>, next: seq<History.Event>, after: seq<History.Event>,
      most: nat)
    requires History.AtMostInFlight(cfg, Breaking.FRESH, es, 0, most) && |next| <= 1 && after == es + next
    requires History.InFlight(cfg, Breaking.FRESH, after, 0) <= most
    ensures History.AtMostInFlight(cfg, Breaking.FRESH, after, 0, most)
  {
    forall i | 0 <= i <= |after| ensures History.InFlight(cfg, Breaking.FRESH, after[..i], 0) <= most {
      assert after[..i] == if i <= |es| then es[..i] else after;
    }
  }

  lemma InFlightAt(p: Policy, r: Behaviour, n: nat, tool: Text, most: nat)
    requires IsRun(p, r) && n < |r.worlds| && AtMostOut(r, n, tool, most)
    ensures History.InFlight(p.breaker, Breaking.FRESH, TraceAt(r.worlds[n], tool), 0) <= most
    ensures n > 0 ==> AtMostOut(r, n - 1, tool, most)
  {
    InFlightIsSuspended(p, r, n, tool);
    assert OutAt(r.worlds[n], tool) <= most;
  }

  lemma NothingInFlight(p: Policy, start: World, tool: Text, most: nat)
    requires OnlyStored(start.log)
    ensures History.AtMostInFlight(p.breaker, Breaking.FRESH, TraceAt(start, tool), 0, most)
  {
    NothingStored(start.log, TraceOf(tool));
  }

  /** A bound on the suspended requests is one on what the breaker's history counts as in flight. */
  lemma {:induction false} OutIsInFlight(p: Policy, r: Behaviour, n: nat, tool: Text, most: nat)
    requires IsRun(p, r) && n < |r.worlds| && AtMostOut(r, n, tool, most)
    ensures History.AtMostInFlight(p.breaker, Breaking.FRESH, TraceAt(r.worlds[n], tool), 0, most)
  {
    if n == 0 {
      NothingInFlight(p, r.worlds[0], tool, most);
    } else {
      InFlightAt(p, r, n, tool, most);
      OutIsInFlight(p, r, n - 1, tool, most);
      var more := TraceGrows(p, r, n, tool);
      AtMostNext(p.breaker, TraceAt(r.worlds[n - 1], tool), more, TraceAt(r.worlds[n], tool), most);
    }
  }

  // ----- total load ----------------------------------------------------------------------------

  /** Event `k` is the first to trip the breaker, at this time. */
  ghost predicate TripsAt(cfg: Breaking.Config, es: seq<History.Event>, k: nat, time: real) {
    && k < |es| && es[k].time == time
    && History.Run(cfg, Breaking.FRESH, es[..k]).mode == Breaking.Closed
    && History.Run(cfg, Breaking.FRESH, es[..k + 1]).mode != Breaking.Closed
  }

  /** No call succeeds, at most `most` are in flight at any point, and event `k` trips the breaker. */
  ghost predicate Failing(cfg: Breaking.Config, es: seq<History.Event>, most: int, k: nat, trip: real) {
    History.NoSuccess(es) && History.AtMostInFlight(cfg, Breaking.FRESH, es, 0, most) && TripsAt(cfg, es, k, trip)
  }

  function LoadLimit(cfg: Breaking.Config, most: int, trip: real, now: real): int {
    cfg.threshold - 1 + most + ((now - trip) / cfg.cooldown).Floor
  }

  lemma LoadOf(p: Policy, b: Breaking.Breaker, es: seq<History.Event>, grants: seq<real>, t: real, now: real,
      most: int, k: nat, trip: real)
    requires TracedBy(p, b, es, grants, t, now) && Failing(p.breaker, es, most, k, trip)
    ensures |grants| <= LoadLimit(p.breaker, most, trip, now)
  {
    History.TotalLoad(p.breaker, Breaking.FRESH, es, 0, most, k, t);
    FloorGrows(History.Last(es).time - es[k].time, now - es[k].time, p.breaker.cooldown);
  }

  lemma FloorGrows(x: real, y: real, gap: real)
    requires x <= y && gap > 0.0
    ensures (x / gap).Floor <= (y / gap).Floor
  {
    History.ScaleDown(x / gap, y / gap, gap);
  }

  lemma SomethingTrips(cfg: Breaking.Config, es: seq<History.Event>, more: seq<History.Event>)
    requires |more| <= 1 && History.Run(cfg, Breaking.FRESH, es) != History.Run(cfg, Breaking.FRESH, es + more)
    ensures |more| == 1
  {
    assert more == [] ==> es + more == es;
  }

  /** The breaker trips at the only event in which a history goes on from `before` to `after`. */
  lemma TripBetween(cfg: Breaking.Config, before: seq<History.Event>, more: seq<History.Event>,
      rest: seq<History.Event>, time: real)
    requires |more| <= 1 && (more != [] ==> more[0].time == time)
    requires History.Run(cfg, Breaking.FRESH, before).mode == Breaking.Closed
    requires History.Run(cfg, Breaking.FRESH, before + more).mode != Breaking.Closed
    ensures TripsAt(cfg, (before + more) + rest, |before|, time)
  {
    var es := (before + more) + rest;
    SomethingTrips(cfg, before, more);
    assert es[..|before|] == before && es[..|before| + 1] == before + more && es[|before|] == more[0];
  }

  lemma TracedInRun(p: Policy, r: Behaviour, n: nat, tool: Text)
    requires IsRun(p, r) && n < |r.worlds|
    ensures BreakerTraced(p, r.worlds[n], r.worlds[0].now, tool)
  {
    BreakerInRun(p, r, n, tool);
  }

  lemma TripNext(p: Policy, w: World, after: World, tool: Text, t: real, more: seq<History.Event>,
      rest: seq<History.Event>)
    requires BreakerTraced(p, w, t, tool) && BreakerTraced(p, after, t, tool)
    requires |more| <= 1 && TraceAt(after, tool) == TraceAt(w, tool) + more
    requires more != [] ==> more[0].time == after.now
    requires BreakerOf(w.core, tool).mode == Breaking.Closed && BreakerOf(after.core, tool).mode != Breaking.Closed
    ensures TripsAt(p.breaker, TraceAt(after, tool) + rest, |TraceAt(w, tool)|, after.now)
  {
    TripBetween(p.breaker, TraceAt(w, tool), more, rest, after.now);
  }

  lemma TripInRun(p: Policy, r: Behaviour, m: nat, tool: Text, rest: seq<History.Event>)
    requires IsRun(p, r) && 0 < m < |r.worlds| && BreakerOf(r.worlds[m - 1].core, tool).mode == Breaking.Closed
    requires BreakerOf(r.worlds[m].core, tool).mode != Breaking.Closed
    ensures TripsAt(p.breaker, TraceAt(r.worlds[m], tool) + rest, |TraceAt(r.worlds[m - 1], tool)|, r.worlds[m].now)
  {
    var more := TraceGrows(p, r, m, tool);
    TracedInRun(p, r, m - 1, tool);
    TracedInRun(p, r, m, tool);
    TripNext(p, r.worlds[m - 1], r.worlds[m], tool, r.worlds[0].now, more, rest);
  }

  /** The step to world `m` trips the breaker: the event of the history that does it. */
  lemma TripOf(p: Policy, r: Behaviour, m: nat, n: nat, tool: Text) returns (k: nat)
    requires IsRun(p, r) && 0 < m <= n < |r.worlds| && BreakerOf(r.worlds[m - 1].core, tool).mode == Breaking.Closed
    requires BreakerOf(r.worlds[m].core, tool).mode != Breaking.Closed
    ensures TripsAt(p.breaker, TraceAt(r.worlds[n], tool), k, r.worlds[m].now)
  {
    k := |TraceAt(r.worlds[m - 1], tool)|;
    TripInRun(p, r, m, tool, Pick(Since(r, m, n), TraceOf(tool)));
    PickSince(p, r, m, n, TraceOf(tool));
  }

  lemma LoadAt(p: Policy, w: World, t: real, tool: Text, most: int, k: nat, trip: real)
    requires BreakerTraced(p, w, t, tool) && Failing(p.breaker, TraceAt(w, tool), most, k, trip)
    ensures |Pick(w.log, GrantsOf(tool))| <= LoadLimit(p.breaker, most, trip, w.now)
  {
    RecordCounts(w.log, tool);
    LoadOf(p, BreakerOf(w.core, tool), TraceAt(w, tool), Pick(w.log, GrantTimes(tool)), t, w.now, most, k, trip);
  }

  lemma LoadAfter(p: Policy, r: Behaviour, n: nat, tool: Text, most: int, k: nat, trip: real)
    requires IsRun(p, r) && n < |r.worlds| && Failing(p.breaker, TraceAt(r.worlds[n], tool), most, k, trip)
    ensures |Pick(r.worlds[n].log, GrantsOf(tool))| <= LoadLimit(p.breaker, most, trip, r.worlds[n].now)
  {
    TracedInRun(p, r, n, tool);
    LoadAt(p, r.worlds[n], r.worlds[0].now, tool, most, k, trip);
  }

  lemma FailingInRun(p: Policy, r: Behaviour, m: nat, n: nat, tool: Text, most: nat) returns (k: nat)
    requires IsRun(p, r) && 0 < m <= n < |r.worlds|
    requires NoneSucceeds(r.worlds[n].log, tool) && AtMostOut(r, n, tool, most)
    requires BreakerOf(r.worlds[m - 1].core, tool).mode == Breaking.Closed
    requires BreakerOf(r.worlds[m].core, tool).mode != Breaking.Closed
    ensures Failing(p.breaker, TraceAt(r.worlds[n], tool), most, k, r.worlds[m].now)
  {
    k := TripOf(p, r, m, n, tool);
    OutIsInFlight(p, r, n, tool, most);
    NoneSucceedsIn(r.worlds[n].log, tool);
  }

  /** Load on a failing tool. If no call of it has succeeded, never more than `most` requests are out at
      once, and its breaker tripped on the way to world `m`, then the whole run up to world `n` lets
      through at most threshold - 1 + most calls of it, plus one per cooldown since that trip. */
  lemma LoadInRun(p: Policy, r: Behaviour, m: nat, n: nat, tool: Text, most: nat)
    requires IsRun(p, r) && 0 < m <= n < |r.worlds|
    requires NoneSucceeds(r.worlds[n].log, tool) && AtMostOut(r, n, tool, most)
    requires BreakerOf(r.worlds[m - 1].core, tool).mode == Breaking.Closed
    requires BreakerOf(r.worlds[m].core, tool).mode != Breaking.Closed
    ensures |Pick(r.worlds[n].log, GrantsOf(tool))|
            <= LoadLimit(p.breaker, most, r.worlds[m].now, r.worlds[n].now)
  {
    var k := FailingInRun(p, r, m, n, tool, most);
    LoadAfter(p, r, n, tool, most, k, r.worlds[m].now);
  }

  /** As long as the breaker stays closed there is no more than that many. */
  lemma LoadBeforeTrip(p: Policy, r: Behaviour, n: nat, tool: Text, most: nat)
    requires IsRun(p, r) && n < |r.worlds| && NoneSucceeds(r.worlds[n].log, tool) && AtMostOut(r, n, tool, most)
    requires BreakerOf(r.worlds[n].core, tool).mode == Breaking.Closed
    ensures |Pick(r.worlds[n].log, GrantsOf(tool))| <= p.breaker.threshold - 1 + most
  {
    NoneSucceedsIn(r.worlds[n].log, tool);
    TracedInRun(p, r, n, tool);
    InFlightAt(p, r, n, tool, most);
    RecordCounts(r.worlds[n].log, tool);
    History.LoadWhileClosed(p.breaker, Breaking.FRESH, TraceAt(r.worlds[n], tool), 0);
  }

  // ----- spacing of grants ---------------------------------------------------------------------

  lemma {:induction false} OpenedBefore(cfg: Breaking.Config, es: seq<History.Event>, t: real)
    requires History.Chronological(t, es) && History.Run(cfg, Breaking.FRESH, es).mode != Breaking.Closed
    ensures es != [] && History.Run(cfg, Breaking.FRESH, es).openedAt <= History.Latest(t, es)
    decreases |es|
  {
    if es != [] && History.Run(cfg, Breaking.FRESH, History.Most(es)).mode != Breaking.Closed {
      OpenedBefore(cfg, History.Most(es), t);
    }
  }

  lemma {:induction false} ChronologicalFrom(t: real, es: seq<History.Event>, earlier: real)
    requires History.Chronological(t, es) && earlier <= t
    ensures History.Chronological(earlier, es)
    decreases |es|
  {
    if es != [] {
      ChronologicalFrom(t, History.Most(es), earlier);
    }
  }

  /** The grants of a history after an open breaker are at least a cooldown apart, the first one a cooldown
      after the trip. */
  lemma SpacedAfter(cfg: Breaking.Config, before: seq<History.Event>, rest: seq<History.Event>, t: real)
    requires History.Chronological(t, before + rest) && History.NoSuccess(rest)
    requires History.Run(cfg, Breaking.FRESH, before).mode == Breaking.Open
    ensures var b := History.Run(cfg, Breaking.FRESH, before);
            var later := History.Admissions(cfg, b, rest);
            && History.Admissions(cfg, Breaking.FRESH, before + rest)
               == History.Admissions(cfg, Breaking.FRESH, before) + later
            && History.Spaced(b.openedAt, later, cfg.cooldown)
  {
    var b, k := History.Run(cfg, Breaking.FRESH, before), |before|;
    History.RunSplits(cfg, Breaking.FRESH, before, rest);
    ChronologicalSplit(t, before, rest);
    OpenedBefore(cfg, before, t);
    ChronologicalFrom(History.Latest(t, before), rest, b.openedAt);
    History.StateIsHistory(cfg, before, 0.0);
    History.LoadAfterTrip(cfg, b, rest);
  }

  lemma {:induction false} ChronologicalSplit(t: real, es: seq<History.Event>, fs: seq<History.Event>)
    requires History.Chronological(t, es + fs)
    ensures History.Chronological(t, es) && History.Chronological(History.Latest(t, es), fs)
    decreases |fs|
  {
    if fs == [] {
      assert es + fs == es;
    } else {
      assert History.Most(es + fs) == es + History.Most(fs);
      ChronologicalSplit(t, es, History.Most(fs));
    }
  }

  /** While a tool's breaker is open at world `j` and no call of it succeeds from then on, the calls let
      through since are at least a cooldown apart, the first one a cooldown after the trip. */
  lemma GrantsAreSpaced(p: Policy, r: Behaviour, j: nat, n: nat, tool: Text)
    requires IsRun(p, r) && j <= n < |r.worlds| && BreakerOf(r.worlds[j].core, tool).mode == Breaking.Open
    requires NoneSucceeds(Since(r, j, n), tool)
    ensures r.worlds[j].log <= r.worlds[n].log
    ensures History.Spaced(BreakerOf(r.worlds[j].core, tool).openedAt, Pick(Since(r, j, n), GrantTimes(tool)),
                           p.breaker.cooldown)
  {
    LogGrows(p, r, j, n);
    PickSince(p, r, j, n, TraceOf(tool));
    PickSince(p, r, j, n, GrantTimes(tool));
    BreakerInRun(p, r, j, tool);
    BreakerInRun(p, r, n, tool);
    NoneSucceedsIn(Since(r, j, n), tool);
    SpacedAfter(p.breaker, TraceAt(r.worlds[j], tool), Pick(Since(r, j, n), TraceOf(tool)), r.worlds[0].now);
    SameTail(Pick(r.worlds[j].log, GrantTimes(tool)), Pick(Since(r, j, n), GrantTimes(tool)),
             History.Admissions(p.breaker, BreakerOf(r.worlds[j].core, tool), Pick(Since(r, j, n), TraceOf(tool))));
  }

  lemma SameTail(head: seq<real>, a: seq<real>, b: seq<real>)
    requires head + a == head + b
    ensures a == b
  {
    assert (head + a)[|head|..] == a && (head + b)[|head|..] == b;
  }
}
