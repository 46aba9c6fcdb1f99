/** What every step of a run keeps for the rate limiter and the upstream calls behind it. */
module RunQuotas {
  import opened Basics
  import opened Gateway
  import opened GatewayRuns
  import Limiting = RateLimiting

  // ----- rate-stage passes are the admitted checks ---------------------------------------------------

  function PassesOf(user: Text): Event -> Option<real> {
    (e: Event) => if e.RatePassed? && e.user == user then Some(e.time) else None
  }

  /** The passes of a user are the admitted checks of that key, and the clock has not gone back. */
  ghost predicate RateTraced(p: Policy, checks: seq<Limiting.Arrival>, log: seq<Event>, now: real, user: Text) {
    && Limiting.Chronological(checks) && (checks != [] ==> Limiting.Last(checks).time <= now)
    && Pick(log, PassesOf(user)) == Limiting.Admitted(p.quota, checks, user)
  }

  ghost predicate NoPasses(es: seq<Event>) {
    forall i :: 0 <= i < |es| ==> !es[i].RatePassed?
  }

  lemma RateTracedOff(p: Policy, checks: seq<Limiting.Arrival>, log: seq<Event>, es: seq<Event>, now: real,
      later: real, user: Text)
    requires RateTraced(p, checks, log, now, user) && NoPasses(es) && now <= later
    ensures RateTraced(p, checks, log + es, later, user)
  {
    PickNothing(log, es, PassesOf(user));
  }

  lemma RateTracedCount(p: Policy, checks: seq<Limiting.Arrival>, log: seq<Event>, now: real, later: real, asker: Text,
      passed: bool, user: Text)
    requires RateTraced(p, checks, log, now, user) && now <= later
    requires passed <==> Limiting.Decide(p.quota, Limiting.Admitted(p.quota, checks, asker), later).Allowed?
    ensures RateTraced(p, checks + [Limiting.Arrival(asker, later)], log + PassEvents(asker, later, passed),
                       later, user)
  {
    var c := Limiting.Arrival(asker, later);
    Limiting.ChronologicalNext(checks, c);
    Limiting.AdmittedNext(p.quota, checks, c, user);
    if passed && asker == user {
      PickNext(log, RatePassed(asker, later), PassesOf(user));
    } else {
      PickNothing(log, PassEvents(asker, later, passed), PassesOf(user));
    }
  }

  lemma RateTracedCheck(p: Policy, before: Core, after: Core, log: seq<Event>, now: real, later: real, asker: Text,
      passed: bool, user: Text)
    requires RateTraced(p, before.checks, log, now, user) && now <= later
    requires RateCounted(p, before, after, asker, later, passed)
    ensures RateTraced(p, after.checks, log + PassEvents(asker, later, passed), later, user)
  {
    if after.checks == before.checks && !passed {
      RateTracedOff(p, before.checks, log, [], now, later, user);
    } else {
      RateTracedCount(p, before.checks, log, now, later, asker, passed, user);
    }
  }

  lemma RateTracedStep(p: Policy, w: World, after: World, s: Shape, user: Text)
    requires RateTraced(p, w.core.checks, w.log, w.now, user) && w.now <= after.now
    requires LogMoves(p, w, after, s) && ChecksMove(p, w.core, after.core, after.now, s)
    ensures RateTraced(p, after.core.checks, after.log, after.now, user)
  {
    var first := FirstEvents(p, w.core.tables.pins, after.now, s);
    EventKinds(p, w.core.tables.pins, after.now, s);
    if s.Enters? || s.Counts? {
      RateTracedCheck(p, w.core, after.core, w.log, w.now, after.now, s.user, s.passed, user);
    } else {
      RateTracedOff(p, w.core.checks, w.log, first, w.now, after.now, user);
    }
    RateTracedOff(p, after.core.checks, w.log + first, LastEvents(s), after.now, after.now, user);
  }

  // ----- upstream calls are covered by passes ----------------------------------------------------------

  ghost predicate Mine(req: Request, began: Moment, user: Text, lo: real, hi: real) {
    UserOf(began.core, req, began.wall) == user && lo < began.now <= hi
  }

  /** Requests of the user that passed the rate stage in this window and wait for the tool list. */
  ghost function Waiting(requests: map<nat, Phase>, user: Text, lo: real, hi: real): set<nat> {
    set r | r in requests && requests[r].Fetching? && Mine(requests[r].req, requests[r].began, user, lo, hi)
  }

  lemma WaitingNext(requests: map<nat, Phase>, rid: nat, phase: Phase, user: Text, lo: real, hi: real)
    ensures var now := Waiting(requests, user, lo, hi);
            Waiting(requests[rid := phase], user, lo, hi)
            == if phase.Fetching? && Mine(phase.req, phase.began, user, lo, hi) then now + {rid}
               else if rid in now then now - {rid} else now
  {
  }

  /** Calls of the user's requests whose rate check fell in this window. */
  function CallsIn(user: Text, lo: real, hi: real): Event -> Option<nat> {
    (e: Event) => if e.Called? && e.user == user && lo < e.rateTime <= hi then Some(e.rid) else None
  }

  ghost predicate Covered(log: seq<Event>, waiting: set<nat>, user: Text, lo: real, hi: real) {
    |Pick(log, CallsIn(user, lo, hi))| + |waiting| <= |Limiting.Within(Pick(log, PassesOf(user)), lo, hi)|
  }

  ghost predicate CallsCovered(w: World, user: Text, lo: real, hi: real) {
    Covered(w.log, Waiting(w.requests, user, lo, hi), user, lo, hi)
  }

  ghost predicate NoPassesOrCalls(es: seq<Event>) {
    forall i :: 0 <= i < |es| ==> !es[i].RatePassed? && !es[i].Called?
  }

  lemma CoveredOff(log: seq<Event>, es: seq<Event>, waiting: set<nat>, user: Text, lo: real, hi: real)
    requires Covered(log, waiting, user, lo, hi) && NoPassesOrCalls(es)
    ensures Covered(log + es, waiting, user, lo, hi)
  {
    PickNothing(log, es, CallsIn(user, lo, hi));
    PickNothing(log, es, PassesOf(user));
  }

  /** A pass makes room for one more. */
  lemma CoveredPass(log: seq<Event>, asker: Text, now: real, passed: bool, waiting: set<nat>, more: set<nat>,
      user: Text, lo: real, hi: real)
    requires Covered(log, waiting, user, lo, hi)
    requires |more| <= |waiting| + (if passed && asker == user && lo < now <= hi then 1 else 0)
    ensures Covered(log + PassEvents(asker, now, passed), more, user, lo, hi)
  {
    var es := PassEvents(asker, now, passed);
    PickNothing(log, es, CallsIn(user, lo, hi));
    if passed && asker == user {
      PickNext(log, RatePassed(asker, now), PassesOf(user));
      Limiting.WithinConcat(Pick(log, PassesOf(user)), [now], lo, hi);
      assert [now][1..] == [];
    } else {
      PickNothing(log, es, PassesOf(user));
    }
  }

  /** A call uses up the place of the request that waited. */
  lemma CoveredCall(log: seq<Event>, call: Event, waiting: set<nat>, user: Text, lo: real, hi: real)
    requires Covered(log, waiting, user, lo, hi) && call.Called?
    requires call.user == user && lo < call.rateTime <= hi <==> call.rid in waiting
    ensures Covered(log + [call], waiting - {call.rid}, user, lo, hi)
  {
    PickNext(log, call, CallsIn(user, lo, hi));
    PickNothing(log, [call], PassesOf(user));
    assert call.rid !in waiting ==> waiting - {call.rid} == waiting;
  }

  ghost predicate Admits(s: Shape, now: real, user: Text, lo: real, hi: real) {
    (s.Enters? || s.Counts?) && s.passed && s.user == user && lo < now <= hi
  }

  /** Only a pass lets one more request wait, and a call is for a request that waited. */
  ghost predicate WaitingMoves(s: Shape, now: real, waiting: set<nat>, waiting': set<nat>, user: Text, lo: real,
      hi: real) {
    if s.Calls? then (s.user == user && lo < s.rateTime <= hi <==> s.rid in waiting) && waiting' == waiting - {s.rid}
    else |waiting'| <= |waiting| + (if Admits(s, now, user, lo, hi) then 1 else 0)
  }

  lemma WaitingEnters(p: Policy, w: World, after: World, s: Shape, user: Text, lo: real, hi: real)
    requires RequestsMove(p, w, after, s) && s.Enters?
    ensures |Waiting(after.requests, user, lo, hi)|
            <= |Waiting(w.requests, user, lo, hi)| + (if Admits(s, after.now, user, lo, hi) then 1 else 0)
  {
    WaitingNext(w.requests, s.rid, after.requests[s.rid], user, lo, hi);
  }

  lemma WaitingCalls(p: Policy, w: World, after: World, s: Shape, user: Text, lo: real, hi: real)
    requires RequestsMove(p, w, after, s) && s.Calls?
    ensures s.user == user && lo < s.rateTime <= hi <==> s.rid in Waiting(w.requests, user, lo, hi)
    ensures Waiting(after.requests, user, lo, hi) == Waiting(w.requests, user, lo, hi) - {s.rid}
  {
    WaitingNext(w.requests, s.rid, after.requests[s.rid], user, lo, hi);
  }

  lemma WaitingLeaves(p: Policy, w: World, after: World, s: Shape, user: Text, lo: real, hi: real)
    requires RequestsMove(p, w, after, s) && (s.CancelsFetch? || s.DeniesCall? || s.Reports?)
    ensures |Waiting(after.requests, user, lo, hi)| <= |Waiting(w.requests, user, lo, hi)|
  {
    WaitingNext(w.requests, s.rid, after.requests[s.rid], user, lo, hi);
  }

  lemma WaitingStep(p: Policy, w: World, after: World, s: Shape, user: Text, lo: real, hi: real)
    requires RequestsMove(p, w, after, s)
    ensures WaitingMoves(s, after.now, Waiting(w.requests, user, lo, hi), Waiting(after.requests, user, lo, hi),
                         user, lo, hi)
  {
    if s.Enters? {
      WaitingEnters(p, w, after, s, user, lo, hi);
    } else if s.Calls? {
      WaitingCalls(p, w, after, s, user, lo, hi);
    } else if OfRequest(s) {
      WaitingLeaves(p, w, after, s, user, lo, hi);
    }
  }

  lemma CallsCoveredStep(p: Policy, w: World, after: World, s: Shape, user: Text, lo: real, hi: real)
    requires CallsCovered(w, user, lo, hi) && LogMoves(p, w, after, s) && RequestsMove(p, w, after, s)
    ensures CallsCovered(after, user, lo, hi)
  {
    WaitingStep(p, w, after, s, user, lo, hi);
    CoveredStep(p, w, after, s, Waiting(w.requests, user, lo, hi), Waiting(after.requests, user, lo, hi), user, lo, hi);
  }

  lemma CoveredCallStep(p: Policy, w: World, after: World, s: Shape, waiting: set<nat>, waiting': set<nat>, user: Text,
      lo: real, hi: real)
    requires Covered(w.log, waiting, user, lo, hi) && LogMoves(p, w, after, s) && s.Calls?
    requires WaitingMoves(s, after.now, waiting, waiting', user, lo, hi)
    ensures Covered(after.log, waiting', user, lo, hi)
  {
    var ask, call := Asked(s.rid, s.tool, after.now, true), LastEvents(s)[0];
    CoveredOff(w.log, [ask], waiting, user, lo, hi);
    CoveredCall(w.log + [ask], call, waiting, user, lo, hi);
  }

  /** What the first events of any other step do. */
  lemma CoveredFirst(p: Policy, w: World, after: World, s: Shape, waiting: set<nat>, waiting': set<nat>, user: Text,
      lo: real, hi: real)
    requires Covered(w.log, waiting, user, lo, hi) && !s.Calls?
    requires WaitingMoves(s, after.now, waiting, waiting', user, lo, hi)
    ensures Covered(w.log + FirstEvents(p, w.core.tables.pins, after.now, s), waiting', user, lo, hi)
  {
    var first := FirstEvents(p, w.core.tables.pins, after.now, s);
    if s.Enters? || s.Counts? {
      CoveredPass(w.log, s.user, after.now, s.passed, waiting, waiting', user, lo, hi);
    } else {
      EventKinds(p, w.core.tables.pins, after.now, s);
      CoveredOff(w.log, first, waiting, user, lo, hi);
      CoveredByLess(w.log + first, waiting, waiting', user, lo, hi);
    }
  }

  lemma CoveredByLess(log: seq<Event>, waiting: set<nat>, waiting': set<nat>, user: Text, lo: real, hi: real)
    requires Covered(log, waiting, user, lo, hi) && |waiting'| <= |waiting|
    ensures Covered(log, waiting', user, lo, hi)
  {
  }

  lemma CoveredStep(p: Policy, w: World, after: World, s: Shape, waiting: set<nat>, waiting': set<nat>, user: Text,
      lo: real, hi: real)
    requires Covered(w.log, waiting, user, lo, hi) && LogMoves(p, w, after, s)
    requires WaitingMoves(s, after.now, waiting, waiting', user, lo, hi)
    ensures Covered(after.log, waiting', user, lo, hi)
  {
    if s.Calls? {
      CoveredCallStep(p, w, after, s, waiting, waiting', user, lo, hi);
    } else {
      CoveredFirst(p, w, after, s, waiting, waiting', user, lo, hi);
      EventKinds(p, w.core.tables.pins, after.now, s);
      CoveredOff(w.log + FirstEvents(p, w.core.tables.pins, after.now, s), LastEvents(s), waiting', user, lo, hi);
    }
  }
}
