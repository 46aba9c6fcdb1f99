/** What every step of a run keeps for the breakers and the requests they let through. */
module RunBreakers {
  import opened Basics
  import opened Gateway
  import opened GatewayRuns
  import Breaking = CircuitBreaking
  import History = BreakerTheorems

  // ----- the state is the history of the tool's events ----------------------------------

  function TraceOf(tool: Text): Event -> Option<History.Event> {
    (e: Event) =>
      if e.Asked? && e.tool == tool then Some(History.Asked(e.time))
      else if e.Told? && e.tool == tool then Some(if e.ok then History.Succeeded(e.time) else History.Failed(e.time))
      else None
  }

  function GrantTimes(tool: Text): Event -> Option<real> {
    (e: Event) => if e.Asked? && e.tool == tool && e.granted then Some(e.time) else None
  }

  ghost predicate BreakerTraced(p: Policy, w: World, t: real, tool: Text) {
    TracedBy(p, BreakerOf(w.core, tool), Pick(w.log, TraceOf(tool)), Pick(w.log, GrantTimes(tool)), t, w.now)
  }

  ghost predicate TracedBy(p: Policy, b: Breaking.Breaker, es: seq<History.Event>, grants: seq<real>, t: real,
      now: real) {
    && b == History.Run(p.breaker, Breaking.FRESH, es)
    && grants == History.Admissions(p.breaker, Breaking.FRESH, es)
    && History.Chronological(t, es) && History.Latest(t, es) <= now
  }

  ghost predicate TracedLog(p: Policy, log: seq<Event>, b: Breaking.Breaker, t: real, tool: Text, now: real) {
    TracedBy(p, b, Pick(log, TraceOf(tool)), Pick(log, GrantTimes(tool)), t, now)
  }

  /** Neither an answer of a breaker nor a report to one. */
  ghost predicate OffBreaker(es: seq<Event>) {
    forall i :: 0 <= i < |es| ==> !es[i].Asked? && !es[i].Told?
  }

  lemma TracedOff(p: Policy, log: seq<Event>, es: seq<Event>, b: Breaking.Breaker, t: real, tool: Text, now: real,
      later: real)
    requires TracedLog(p, log, b, t, tool, now) && OffBreaker(es) && now <= later
    ensures TracedLog(p, log + es, b, t, tool, later)
  {
    PickNothing(log, es, TraceOf(tool));
    PickNothing(log, es, GrantTimes(tool));
  }

  /** One more event of the tool. */
  lemma TraceNext(p: Policy, b: Breaking.Breaker, es: seq<History.Event>, grants: seq<real>, t: real, now: real,
      e: History.Event)
    requires TracedBy(p, b, es, grants, t, now) && now <= e.time
    ensures TracedBy(p, History.Apply(p.breaker, b, e), es + [e],
                     grants + (if e.Asked? && Breaking.Allow(p.breaker, b, e.time).1 then [e.time] else []), t, e.time)
  {
    assert History.Most(es + [e]) == es;
  }

  lemma TracedAsk(p: Policy, log: seq<Event>, b: Breaking.Breaker, t: real, tool: Text, now: real, rid: nat,
      later: real, granted: bool)
    requires TracedLog(p, log, b, t, tool, now) && now <= later && granted == Breaking.Allow(p.breaker, b, later).1
    ensures TracedLog(p, log + [Asked(rid, tool, later, granted)], Breaking.Allow(p.breaker, b, later).0,
                      t, tool, later)
  {
    var e := Asked(rid, tool, later, granted);
    TraceNext(p, b, Pick(log, TraceOf(tool)), Pick(log, GrantTimes(tool)), t, now, History.Asked(later));
    PickNext(log, e, TraceOf(tool));
    PickNext(log, e, GrantTimes(tool));
    assert Pick(log, GrantTimes(tool)) + [] == Pick(log, GrantTimes(tool));
  }

  lemma TracedTell(p: Policy, log: seq<Event>, b: Breaking.Breaker, t: real, tool: Text, now: real, rid: nat,
      later: real, ok: bool)
    requires TracedLog(p, log, b, t, tool, now) && now <= later
    ensures TracedLog(p, log + [Told(rid, tool, ok, later)], ToldBreaker(p, b, ok, later), t, tool, later)
  {
    var e := Told(rid, tool, ok, later);
    TraceNext(p, b, Pick(log, TraceOf(tool)), Pick(log, GrantTimes(tool)), t, now,
              if ok then History.Succeeded(later) else History.Failed(later));
    PickNext(log, e, TraceOf(tool));
    PickNext(log, e, GrantTimes(tool));
  }

  /** An event of another tool. */
  lemma TracedElsewhere(p: Policy, log: seq<Event>, e: Event, b: Breaking.Breaker, t: real, tool: Text, now: real,
      later: real)
    requires TracedLog(p, log, b, t, tool, now) && now <= later && (e.Asked? || e.Told?) && e.tool != tool
    ensures TracedLog(p, log + [e], b, t, tool, later)
  {
    PickNothing(log, [e], TraceOf(tool));
    PickNothing(log, [e], GrantTimes(tool));
  }

  lemma BreakerTracedAsk(p: Policy, w: World, rid: nat, asker: Text, now: real, granted: bool, t: real, tool: Text)
    requires BreakerTraced(p, w, t, tool) && w.now <= now
    requires granted == Breaking.Allow(p.breaker, BreakerOf(w.core, asker), now).1
    ensures TracedLog(p, w.log + [Asked(rid, asker, now, granted)], BreakerOf(Ask(p, w.core, asker, now), tool),
                      t, tool, now)
  {
    if asker == tool {
      TracedAsk(p, w.log, BreakerOf(w.core, tool), t, tool, w.now, rid, now, granted);
    } else {
      TracedElsewhere(p, w.log, Asked(rid, asker, now, granted), BreakerOf(w.core, tool), t, tool, w.now, now);
    }
  }

  lemma BreakerTracedReport(p: Policy, w: World, rid: nat, teller: Text, lost: bool, ok: bool, now: real, t: real,
      tool: Text)
    requires BreakerTraced(p, w, t, tool) && w.now <= now
    ensures TracedLog(p, w.log + [ReportEvent(rid, teller, lost, ok, now)],
                      if lost || teller != tool then BreakerOf(w.core, tool)
                      else ToldBreaker(p, BreakerOf(w.core, tool), ok, now), t, tool, now)
  {
    var e, b := ReportEvent(rid, teller, lost, ok, now), BreakerOf(w.core, tool);
    if lost {
      TracedOff(p, w.log, [e], b, t, tool, w.now, now);
    } else if teller == tool {
      TracedTell(p, w.log, b, t, tool, w.now, rid, now, ok);
    } else {
      TracedElsewhere(p, w.log, e, b, t, tool, w.now, now);
    }
  }

  lemma KindsOffBreaker(s: Shape, es: seq<Event>)
    requires (FirstKind(s, es) && !s.Calls? && !s.DeniesCall? && !s.Reports?) || LastKind(s, es)
    ensures OffBreaker(es)
  {
  }

  lemma NoEventsTraced(p: Policy, log: seq<Event>, b: Breaking.Breaker, t: real, tool: Text, now: real, later: real)
    requires TracedLog(p, log, b, t, tool, now) && now <= later
    ensures TracedLog(p, log + [], b, t, tool, later)
  {
    TracedOff(p, log, [], b, t, tool, now, later);
  }

  /** What the first events of a step do. */
  lemma TracedFirst(p: Policy, w: World, after: World, s: Shape, t: real, tool: Text)
    requires BreakerTraced(p, w, t, tool) && w.now <= after.now && BreakersMove(p, w.core, after.core, after.now, s)
    ensures TracedLog(p, w.log + FirstEvents(p, w.core.tables.pins, after.now, s), BreakerOf(after.core, tool),
                      t, tool, after.now)
  {
    if s.Calls? {
      BreakerTracedAsk(p, w, s.rid, s.tool, after.now, true, t, tool);
    } else if s.DeniesCall? {
      if s.asked {
        BreakerTracedAsk(p, w, s.rid, s.tool, after.now, false, t, tool);
      } else {
        NoEventsTraced(p, w.log, BreakerOf(w.core, tool), t, tool, w.now, after.now);
      }
    } else if s.Reports? {
      BreakerTracedReport(p, w, s.rid, s.tool, s.lost, s.ok, after.now, t, tool);
    } else {
      TracedElse(p, w, after, s, t, tool);
    }
  }

  lemma TracedElse(p: Policy, w: World, after: World, s: Shape, t: real, tool: Text)
    requires BreakerTraced(p, w, t, tool) && w.now <= after.now && BreakersMove(p, w.core, after.core, after.now, s)
    requires !s.Calls? && !s.DeniesCall? && !s.Reports?
    ensures TracedLog(p, w.log + FirstEvents(p, w.core.tables.pins, after.now, s), BreakerOf(after.core, tool),
                      t, tool, after.now)
  {
    var first := FirstEvents(p, w.core.tables.pins, after.now, s);
    EventKinds(p, w.core.tables.pins, after.now, s);
    KindsOffBreaker(s, first);
    TracedOff(p, w.log, first, BreakerOf(w.core, tool), t, tool, w.now, after.now);
  }

  lemma BreakerTracedStep(p: Policy, w: World, after: World, s: Shape, t: real, tool: Text)
    requires BreakerTraced(p, w, t, tool) && w.now <= after.now
    requires LogMoves(p, w, after, s) && BreakersMove(p, w.core, after.core, after.now, s)
    ensures BreakerTraced(p, after, t, tool)
  {
    var first := FirstEvents(p, w.core.tables.pins, after.now, s);
    TracedFirst(p, w, after, s, t, tool);
    EventKinds(p, w.core.tables.pins, after.now, s);
    KindsOffBreaker(s, LastEvents(s));
    TracedOff(p, w.log + first, LastEvents(s), BreakerOf(after.core, tool), t, tool, after.now, after.now);
  }

  // ----- conservation, and the probe ---------------------------------------------------------------

  /** The requests suspended at the upstream call of this tool. */
  function Suspended(requests: map<nat, Phase>, tool: Text): set<nat> {
    set r | r in requests && requests[r].Calling? && requests[r].req.tool == tool
  }

  lemma SuspendedNext(requests: map<nat, Phase>, rid: nat, phase: Phase, tool: Text)
    ensures var out := Suspended(requests, tool);
            Suspended(requests[rid := phase], tool)
            == if phase.Calling? && phase.req.tool == tool then out + {rid} else if rid in out then out - {rid} else out
  {
  }

  /** Requests let through by the breaker, requests that made a report to it, and those of the
      latter whose report failed. */
  function GrantsOf(tool: Text): Event -> Option<nat> {
    (e: Event) => if e.Asked? && e.tool == tool && e.granted then Some(e.rid) else None
  }

  function ReportsOf(tool: Text): Event -> Option<nat> {
    (e: Event) => if (e.Told? || e.Lost?) && e.tool == tool then Some(e.rid) else None
  }

  function LostOf(tool: Text): Event -> Option<nat> {
    (e: Event) => if e.Lost? && e.tool == tool then Some(e.rid) else None
  }

  /** Grants less reports are the suspended requests; and if the breaker is half open, the request it
      last let through is still suspended, unless its report failed. */
  ghost predicate Balanced(b: Breaking.Breaker, grants: seq<nat>, reports: seq<nat>, lost: seq<nat>,
      suspended: set<nat>) {
    && |grants| - |reports| == |suspended|
    && (b.mode == Breaking.HalfOpen ==>
          grants != [] && (grants[|grants| - 1] in suspended || grants[|grants| - 1] in lost))
  }

  ghost predicate BalancedLog(log: seq<Event>, b: Breaking.Breaker, tool: Text, suspended: set<nat>) {
    Balanced(b, Pick(log, GrantsOf(tool)), Pick(log, ReportsOf(tool)), Pick(log, LostOf(tool)), suspended)
  }

  ghost predicate BreakerBalanced(w: World, tool: Text) {
    BalancedLog(w.log, BreakerOf(w.core, tool), tool, Suspended(w.requests, tool))
  }

  /** Neither a grant nor a report of this tool. */
  ghost predicate OffBalance(es: seq<Event>, tool: Text) {
    forall i :: 0 <= i < |es| ==>
      var e := es[i];
      !(e.Asked? && e.tool == tool && e.granted) && !((e.Told? || e.Lost?) && e.tool == tool)
  }

  lemma BalancedOff(log: seq<Event>, es: seq<Event>, b: Breaking.Breaker, tool: Text, suspended: set<nat>)
    requires BalancedLog(log, b, tool, suspended) && OffBalance(es, tool)
    ensures BalancedLog(log + es, b, tool, suspended)
  {
    PickNothing(log, es, GrantsOf(tool));
    PickNothing(log, es, ReportsOf(tool));
    PickNothing(log, es, LostOf(tool));
  }

  lemma BalancedGrant(log: seq<Event>, b: Breaking.Breaker, after: Breaking.Breaker, tool: Text, out: set<nat>,
      rid: nat, asker: Text, now: real)
    requires BalancedLog(log, b, tool, out) && rid !in out && (asker != tool ==> after == b)
    ensures BalancedLog(log + [Asked(rid, asker, now, true)], after, tool, if asker == tool then out + {rid} else out)
  {
    var e := Asked(rid, asker, now, true);
    if asker == tool {
      PickNext(log, e, GrantsOf(tool));
      PickNothing(log, [e], ReportsOf(tool));
      PickNothing(log, [e], LostOf(tool));
    } else {
      BalancedOff(log, [e], b, tool, out);
    }
  }

  lemma BalancedReport(p: Policy, log: seq<Event>, b: Breaking.Breaker, tool: Text, out: set<nat>, rid: nat,
      teller: Text, lost: bool, ok: bool, now: real)
    requires BalancedLog(log, b, tool, out) && (teller == tool <==> rid in out)
    ensures BalancedLog(log + [ReportEvent(rid, teller, lost, ok, now)],
                        if lost || teller != tool then b else ToldBreaker(p, b, ok, now), tool,
                        if rid in out then out - {rid} else out)
  {
    var e := ReportEvent(rid, teller, lost, ok, now);
    if teller == tool {
      PickNothing(log, [e], GrantsOf(tool));
      PickNext(log, e, ReportsOf(tool));
      PickNext(log, e, LostOf(tool));
    } else {
      BalancedOff(log, [e], b, tool, out);
    }
  }

  lemma SuspendedStep(p: Policy, w: World, after: World, s: Shape, tool: Text)
    requires RequestsMove(p, w, after, s)
    ensures var out := Suspended(w.requests, tool);
            && (s.Calls? ==> s.rid !in out) && (s.Reports? ==> (s.tool == tool <==> s.rid in out))
            && Suspended(after.requests, tool) == if s.Calls? && s.tool == tool then out + {s.rid}
                                                  else if s.Reports? && s.rid in out then out - {s.rid} else out
  {
    if OfRequest(s) {
      SuspendedNext(w.requests, s.rid, after.requests[s.rid], tool);
    }
  }

  lemma BreakerBalancedStep(p: Policy, w: World, after: World, s: Shape, tool: Text)
    requires BreakerBalanced(w, tool) && LogMoves(p, w, after, s)
    requires BreakersMove(p, w.core, after.core, after.now, s) && RequestsMove(p, w, after, s)
    ensures BreakerBalanced(after, tool)
  {
    SuspendedStep(p, w, after, s, tool);
    BalancedStep(p, w, after, s, tool, Suspended(w.requests, tool), Suspended(after.requests, tool));
  }

  lemma KindsOffBalance(s: Shape, es: seq<Event>, tool: Text)
    requires (FirstKind(s, es) && !s.Calls? && !s.Reports?) || LastKind(s, es)
    ensures OffBalance(es, tool)
  {
  }

  /** What the first events of a step do. */
  lemma BalancedFirst(p: Policy, w: World, after: World, s: Shape, tool: Text, out: set<nat>, out': set<nat>)
    requires BalancedLog(w.log, BreakerOf(w.core, tool), tool, out) && BreakersMove(p, w.core, after.core, after.now, s)
    requires (s.Calls? ==> s.rid !in out) && (s.Reports? ==> (s.tool == tool <==> s.rid in out))
    requires out' == if s.Calls? && s.tool == tool then out + {s.rid}
                     else if s.Reports? && s.rid in out then out - {s.rid} else out
    ensures BalancedLog(w.log + FirstEvents(p, w.core.tables.pins, after.now, s), BreakerOf(after.core, tool),
                        tool, out')
  {
    var first := FirstEvents(p, w.core.tables.pins, after.now, s);
    var b, c := BreakerOf(w.core, tool), BreakerOf(after.core, tool);
    if s.Calls? {
      BalancedGrant(w.log, b, c, tool, out, s.rid, s.tool, after.now);
    } else if s.Reports? {
      BalancedReport(p, w.log, b, tool, out, s.rid, s.tool, s.lost, s.ok, after.now);
    } else {
      EventKinds(p, w.core.tables.pins, after.now, s);
      KindsOffBalance(s, first, tool);
      BalancedOff(w.log, first, b, tool, out);
      SameOrRefused(p, w, after, s, tool);
      BalancedWith(w.log + first, b, c, tool, out);
    }
  }

  /** A breaker that is not told anything and lets nobody through stays as it is. */
  lemma SameOrRefused(p: Policy, w: World, after: World, s: Shape, tool: Text)
    requires BreakersMove(p, w.core, after.core, after.now, s) && !s.Calls? && !s.Reports?
    ensures BreakerOf(after.core, tool) == BreakerOf(w.core, tool)
  {
  }

  lemma BalancedWith(log: seq<Event>, b: Breaking.Breaker, c: Breaking.Breaker, tool: Text, out: set<nat>)
    requires BalancedLog(log, b, tool, out) && c == b
    ensures BalancedLog(log, c, tool, out)
  {
  }

  lemma BalancedStep(p: Policy, w: World, after: World, s: Shape, tool: Text, out: set<nat>, out': set<nat>)
    requires BalancedLog(w.log, BreakerOf(w.core, tool), tool, out) && LogMoves(p, w, after, s)
    requires BreakersMove(p, w.core, after.core, after.now, s)
    requires (s.Calls? ==> s.rid !in out) && (s.Reports? ==> (s.tool == tool <==> s.rid in out))
    requires out' == if s.Calls? && s.tool == tool then out + {s.rid}
                     else if s.Reports? && s.rid in out then out - {s.rid} else out
    ensures BalancedLog(after.log, BreakerOf(after.core, tool), tool, out')
  {
    var first := FirstEvents(p, w.core.tables.pins, after.now, s);
    BalancedFirst(p, w, after, s, tool, out, out');
    EventKinds(p, w.core.tables.pins, after.now, s);
    KindsOffBalance(s, LastEvents(s), tool);
    BalancedOff(w.log + first, LastEvents(s), BreakerOf(after.core, tool), tool, out');
  }
}
