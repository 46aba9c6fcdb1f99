/** What holds in every run: any interleaving of requests, approvals, re-approvals, other rate-limited
    calls and account changes, against an upstream that may answer anything, with components that may
    raise anywhere. */
module RunTheorems {
  import opened Basics
  import opened Storage
  import opened Gateway
  import opened Integrity
  import opened GatewayAnswers
  import GatewayTheorems
  import Scanning
  import Risk
  import opened GatewayRuns
  import opened RunBreakers
  import opened RunQuotas
  import opened RunPins
  import opened RunAnswers
  import opened RunSessions
  import opened RunRequests
  import Limiting = RateLimiting
  import LimiterTheorems
  import Breaking = CircuitBreaking
  import History = BreakerTheorems
  import Auth = Authentication

  /** What a store brings: approvals and sessions. */
  ghost predicate OnlyStored(es: seq<Event>) {
    forall i :: 0 <= i < |es| ==> es[i].Pinned? || es[i].SignedIn? || es[i].SignedOut?
  }

  /** A firewall that starts up over a store. Its record begins with the approvals behind the pins and
      the logins and revocations behind the sessions. */
  ghost predicate Started(p: Policy, start: World) {
    && start.core.checks == [] && start.core.breakers == map[] && start.core.attempts == [] && start.requests == map[]
    && OnlyStored(start.log) && SessionsTracedIn(p, start)
    && AllPinsTraced(p, start)
  }

  ghost predicate AllPinsTraced(p: Policy, start: World) {
    forall name :: PinTracedIn(p, start, name)
  }

  lemma PinAtStart(p: Policy, start: World, name: Text)
    requires AllPinsTraced(p, start)
    ensures PinTracedIn(p, start, name)
  {
  }

  /** An empty store will do. */
  lemma EmptyStoreStarts(p: Policy, users: map<Text, User>, now: real)
    ensures Started(p, World(Core(Tables(users, map[], map[], []), [], map[], []), now, map[], []))
  {
  }

  ghost predicate IsRun(p: Policy, r: Behaviour) {
    && |r.worlds| == |r.actions| + 1
    && Started(p, r.worlds[0])
    && forall i :: 0 <= i < |r.actions| ==> Happens(p, r, i)
  }

  /** Every sequence of actions has its run. */
  lemma {:induction false} RunExists(p: Policy, start: World, actions: seq<Action>) returns (r: Behaviour)
    requires Started(p, start)
    ensures IsRun(p, r) && r.worlds[0] == start && r.actions == actions
    decreases |actions|
  {
    if actions == [] {
      r := Behaviour([start], []);
    } else {
      var n := |actions| - 1;
      var most := RunExists(p, start, actions[..n]);
      r := Behaviour(most.worlds + [Step(p, most.worlds[n], actions[n])], actions);
      forall i | 0 <= i < |actions| ensures Happens(p, r, i) {
        if i < n {
          assert Happens(p, most, i);
        }
      }
    }
  }

  lemma BreakerAtStart(p: Policy, start: World, tool: Text)
    requires OnlyStored(start.log) && start.core.breakers == map[] && start.requests == map[]
    ensures BreakerTraced(p, start, start.now, tool) && BreakerBalanced(start, tool)
  {
    NothingStored(start.log, TraceOf(tool));
    NothingStored(start.log, GrantTimes(tool));
    NothingStored(start.log, GrantsOf(tool));
    NothingStored(start.log, ReportsOf(tool));
    NothingStored(start.log, LostOf(tool));
  }

  lemma QuotaAtStart(p: Policy, start: World, user: Text, lo: real, hi: real)
    requires OnlyStored(start.log) && start.core.checks == [] && start.requests == map[]
    ensures RateTraced(p, start.core.checks, start.log, start.now, user) && CallsCovered(start, user, lo, hi)
  {
    NothingStored(start.log, PassesOf(user));
    NothingStored(start.log, CallsIn(user, lo, hi));
    assert Waiting(start.requests, user, lo, hi) == {};
  }

  lemma AnswersAtStart(p: Policy, start: World, rid: nat)
    requires OnlyStored(start.log) && start.core.attempts == [] && start.requests == map[]
    ensures Audited(start.core.attempts, start.log) && AnsweredOnce(start, rid) && SoundIn(p, start, rid)
  {
    NothingStored(start.log, AnswerSummaries());
    NothingStored(start.log, ResultsOf(rid));
  }

  lemma NothingStored<T>(log: seq<Event>, f: Event -> Option<T>)
    requires OnlyStored(log) && forall e: Event :: e.Pinned? || e.SignedIn? || e.SignedOut? ==> f(e) == None
    ensures Pick(log, f) == []
  {
    assert [] + log == log;
    PickNothing([], log, f);
  }

  /** Every action of a run has one of the shapes. */
  lemma ShapeBefore(p: Policy, r: Behaviour, n: nat) returns (s: Shape)
    requires IsRun(p, r) && 0 < n < |r.worlds|
    ensures Fits(p, r.worlds[n - 1], r.worlds[n], s)
  {
    assert Happens(p, r, n - 1);
    s := StepFits(p, r.worlds[n - 1], r.actions[n - 1]);
  }

  // ----- every point of a run --------------------------------------------------------------------------

  /** The invariants about one tool, user and window, name, and request. */
  datatype Focus = Focus(tool: Text, user: Text, lo: real, hi: real, name: Text, rid: nat)

  ghost predicate Kept(p: Policy, w: World, t: real, x: Focus) {
    && BreakerTraced(p, w, t, x.tool) && BreakerBalanced(w, x.tool)
    && RateTraced(p, w.core.checks, w.log, w.now, x.user) && CallsCovered(w, x.user, x.lo, x.hi)
    && PinTracedIn(p, w, x.name) && SessionsTracedIn(p, w)
    && Audited(w.core.attempts, w.log) && AnsweredOnce(w, x.rid) && SoundIn(p, w, x.rid)
  }

  lemma KeptAtStart(p: Policy, start: World, x: Focus)
    requires Started(p, start)
    ensures Kept(p, start, start.now, x)
  {
    BreakerAtStart(p, start, x.tool);
    QuotaAtStart(p, start, x.user, x.lo, x.hi);
    AnswersAtStart(p, start, x.rid);
    PinAtStart(p, start, x.name);
  }

  lemma KeptStep(p: Policy, w: World, after: World, s: Shape, t: real, x: Focus)
    requires Kept(p, w, t, x) && Fits(p, w, after, s)
    ensures Kept(p, after, t, x)
  {
    BreakerTracedStep(p, w, after, s, t, x.tool);
    BreakerBalancedStep(p, w, after, s, x.tool);
    RateTracedStep(p, w, after, s, x.user);
    CallsCoveredStep(p, w, after, s, x.user, x.lo, x.hi);
    PinTracedStep(p, w, after, s, x.name);
    SessionsTracedStep(p, w, after, s);
    AuditedStep(p, w, after, s);
    AnsweredOnceStep(p, w, after, s, x.rid);
    SoundStep(p, w, after, s, x.rid);
  }

  lemma {:induction false} KeptInRun(p: Policy, r: Behaviour, n: nat, x: Focus)
    requires IsRun(p, r) && n < |r.worlds|
    ensures Kept(p, r.worlds[n], r.worlds[0].now, x)
  {
    if n == 0 {
      KeptAtStart(p, r.worlds[0], x);
    } else {
      KeptInRun(p, r, n - 1, x);
      var s := ShapeBefore(p, r, n);
      KeptStep(p, r.worlds[n - 1], r.worlds[n], s, r.worlds[0].now, x);
    }
  }

  lemma BreakerInRun(p: Policy, r: Behaviour, n: nat, tool: Text)
    requires IsRun(p, r) && n < |r.worlds|
    ensures BreakerTraced(p, r.worlds[n], r.worlds[0].now, tool) && BreakerBalanced(r.worlds[n], tool)
  {
    KeptInRun(p, r, n, Focus(tool, [], 0.0, 0.0, [], 0));
  }

  lemma QuotaInRun(p: Policy, r: Behaviour, n: nat, user: Text, lo: real, hi: real)
    requires IsRun(p, r) && n < |r.worlds|
    ensures RateTraced(p, r.worlds[n].core.checks, r.worlds[n].log, r.worlds[n].now, user)
    ensures CallsCovered(r.worlds[n], user, lo, hi)
  {
    KeptInRun(p, r, n, Focus([], user, lo, hi, [], 0));
  }

  lemma PinInRun(p: Policy, r: Behaviour, n: nat, name: Text)
    requires IsRun(p, r) && n < |r.worlds|
    ensures PinTracedIn(p, r.worlds[n], name)
  {
    KeptInRun(p, r, n, Focus([], [], 0.0, 0.0, name, 0));
  }

  lemma SessionsInRun(p: Policy, r: Behaviour, n: nat)
    requires IsRun(p, r) && n < |r.worlds|
    ensures SessionsTracedIn(p, r.worlds[n])
  {
    KeptInRun(p, r, n, Focus([], [], 0.0, 0.0, [], 0));
  }

  lemma RequestInRun(p: Policy, r: Behaviour, n: nat, rid: nat)
    requires IsRun(p, r) && n < |r.worlds|
    ensures Audited(r.worlds[n].core.attempts, r.worlds[n].log) && AnsweredOnce(r.worlds[n], rid)
    ensures SoundIn(p, r.worlds[n], rid)
  {
    KeptInRun(p, r, n, Focus([], [], 0.0, 0.0, [], rid));
  }

  // ----- called tools are clean ----------------------------------------------------------------------

  lemma AllVettedAtStart(p: Policy, start: World)
    requires OnlyStored(start.log)
    ensures AllVetted(p, start.log)
  {
    AllVettedOff(p, [], start.log);
    assert [] + start.log == start.log;
  }

  lemma AllVettedKept(p: Policy, w: World, after: World, s: Shape)
    requires AllVetted(p, w.log) && PinTracedIn(p, w, NameAt(s)) && Fits(p, w, after, s)
    ensures AllVetted(p, after.log)
  {
    AllVettedStep(p, w, after, s);
  }

  lemma {:induction false} AllVettedInRun(p: Policy, r: Behaviour, n: nat)
    requires IsRun(p, r) && n < |r.worlds|
    ensures AllVetted(p, r.worlds[n].log)
  {
    if n == 0 {
      AllVettedAtStart(p, r.worlds[0]);
    } else {
      AllVettedInRun(p, r, n - 1);
      var s := ShapeBefore(p, r, n);
      PinInRun(p, r, n - 1, NameAt(s));
      AllVettedKept(p, r.worlds[n - 1], r.worlds[n], s);
    }
  }

  /** Whatever the upstream lists from fetch to fetch, and however approvals interleave, every upstream
      call is for a tool whose unique fetched definition has the fingerprint of the one approved last:
      it was approved by someone who may manage and passed the scan, and so does the live one. */
  lemma CalledToolsAreClean(p: Policy, r: Behaviour, n: nat, i: nat)
    requires IsRun(p, r) && n < |r.worlds| && i < |r.worlds[n].log| && r.worlds[n].log[i].Called?
    ensures Vetted(p, r.worlds[n].log[..i], r.worlds[n].log[i])
  {
    AllVettedInRun(p, r, n);
    EachAt(r.worlds[n].log, i, VettedBy(p));
  }

  // ----- listed tools are clean ----------------------------------------------------------------------

  /** The definition can be trusted as the one approved last under its name so far. */
  ghost predicate TrustedNow(p: Policy, w: World, d: ToolDefinition) {
    TrustedBy(p, Pick(w.log, ApprovalsOf(d.name)), d)
  }

  lemma VerifiedIsTrustedNow(p: Policy, w: World, d: ToolDefinition)
    requires PinTracedIn(p, w, d.name) && Verify(w.core.tables.pins, d).OkIntegrity?
    ensures TrustedNow(p, w, d)
  {
    VerifiedIsTrusted(p, w.core.tables.pins, Pick(w.log, ApprovalsOf(d.name)), d, d.name);
  }

  /** Whatever list the upstream sends, at any point of a run, an agent is shown no entry but that of a
      definition its role may use and that can be trusted as the one approved last under its name. */
  lemma ListedToolsAreClean(p: Policy, r: Behaviour, n: nat, role: Text, tools: seq<ToolDefinition>, info: ToolInfo)
    requires IsRun(p, r) && n < |r.worlds| && !(role in p.roles && p.roles[role].canManage)
    requires info in Listing(p, r.worlds[n].core.tables.pins, role, tools)
    ensures exists i ::
              && 0 <= i < |tools| && GatewayTheorems.EntryOf(p, r.worlds[n].core.tables.pins, tools[i], info)
              && role in p.roles && tools[i].name in p.roles[role].allowedTools
              && Risk.Rank(Risk.Classify(p.toolRisk, tools[i].name)) <= Risk.Rank(p.roles[role].maxRisk)
              && TrustedNow(p, r.worlds[n], tools[i])
  {
    var w := r.worlds[n];
    GatewayTheorems.ListingIsExact(p, w.core.tables.pins, role, tools, info);
    var i :|
      && 0 <= i < |tools| && GatewayTheorems.Shown(p, w.core.tables.pins, role, tools[i])
      && GatewayTheorems.EntryOf(p, w.core.tables.pins, tools[i], info);
    PinInRun(p, r, n, tools[i].name);
    VerifyIs(w.core.tables.pins, tools[i]);
    VerifiedIsTrustedNow(p, w, tools[i]);
  }

  // ----- breakers ------------------------------------------------------------------------------------

  /** For each tool, calls let through less reports made are the requests suspended at the upstream. */
  lemma Conservation(p: Policy, r: Behaviour, n: nat, tool: Text)
    requires IsRun(p, r) && n < |r.worlds|
    ensures var w := r.worlds[n];
            |Pick(w.log, GrantsOf(tool))| - |Pick(w.log, ReportsOf(tool))| == |Suspended(w.requests, tool)|
  {
    BreakerInRun(p, r, n, tool);
  }

  /** A half-open breaker is never stranded: the request it let through last, its probe, is still
      suspended at the upstream, unless the report it made raised. Nobody else is let through. */
  lemma ProbeIsOut(p: Policy, r: Behaviour, n: nat, tool: Text, now: real)
    requires IsRun(p, r) && n < |r.worlds| && BreakerOf(r.worlds[n].core, tool).mode == Breaking.HalfOpen
    ensures
      var w := r.worlds[n];
      var grants := Pick(w.log, GrantsOf(tool));
      && grants != []
      && (grants[|grants| - 1] in Suspended(w.requests, tool) || grants[|grants| - 1] in Pick(w.log, LostOf(tool)))
      && !Breaking.Allow(p.breaker, BreakerOf(w.core, tool), now).1
  {
    BreakerInRun(p, r, n, tool);
    History.StateIsHistory(p.breaker, Pick(r.worlds[n].log, TraceOf(tool)), now);
  }

  /** The breaker of a tool is what the history of its own calls and reports makes it. */
  lemma BreakerIsHistory(p: Policy, r: Behaviour, n: nat, tool: Text)
    requires IsRun(p, r) && n < |r.worlds|
    ensures
      var b, es := BreakerOf(r.worlds[n].core, tool), Pick(r.worlds[n].log, TraceOf(tool));
      && (b.mode == Breaking.HalfOpen <==> b.probeInFlight)
      && (b.mode == Breaking.HalfOpen <==> History.Probing(p.breaker, es))
      && (b.mode == Breaking.Closed <==> History.LastTrip(p.breaker, es) == None)
      && b.failures == History.FailuresSince(p.breaker, es) < p.breaker.threshold
  {
    BreakerInRun(p, r, n, tool);
    History.StateIsHistory(p.breaker, Pick(r.worlds[n].log, TraceOf(tool)), 0.0);
  }

  /** Reports in a breaker's history. */
  function Tells(es: seq<History.Event>): nat {
    if es == [] then 0 else Tells(History.Most(es)) + (if History.Last(es).Asked? then 0 else 1)
  }

  lemma {:induction false} InFlightCounts(cfg: Breaking.Config, b: Breaking.Breaker, es: seq<History.Event>)
    ensures History.InFlight(cfg, b, es, 0) == |History.Admissions(cfg, b, es)| - Tells(es)
  {
    if es != [] {
      InFlightCounts(cfg, b, History.Most(es));
    }
  }

  lemma GrantsAlike(e: Event, tool: Text)
    ensures |Found(GrantTimes(tool)(e))| == |Found(GrantsOf(tool)(e))|
  {
  }

  lemma ReportsSplit(e: Event, tool: Text)
    ensures var next := Found(TraceOf(tool)(e));
            |Found(ReportsOf(tool)(e))| == |Found(LostOf(tool)(e))| + (if next != [] && !next[0].Asked? then 1 else 0)
  {
  }

  lemma {:induction false} RecordCounts(log: seq<Event>, tool: Text)
    ensures |Pick(log, GrantTimes(tool))| == |Pick(log, GrantsOf(tool))|
    ensures |Pick(log, ReportsOf(tool))| == |Pick(log, LostOf(tool))| + Tells(Pick(log, TraceOf(tool)))
  {
    if log != [] {
      var before, e := log[..|log| - 1], log[|log| - 1];
      RecordCounts(before, tool);
      GrantsAlike(e, tool);
      ReportsSplit(e, tool);
      TellsNext(Pick(before, TraceOf(tool)), Found(TraceOf(tool)(e)));
    }
  }

  lemma TellsNext(es: seq<History.Event>, next: seq<History.Event>)
    requires |next| <= 1
    ensures Tells(es + next) == Tells(es) + (if next != [] && !next[0].Asked? then 1 else 0)
  {
    if next == [] {
      assert es + next == es;
    } else {
      assert History.Most(es + next) == es;
    }
  }

  /** What a breaker's history counts as in flight are the requests suspended at the upstream, and
      those whose report raised. */
  lemma InFlightIsSuspended(p: Policy, r: Behaviour, n: nat, tool: Text)
    requires IsRun(p, r) && n < |r.worlds|
    ensures var w := r.worlds[n];
            History.InFlight(p.breaker, Breaking.FRESH, Pick(w.log, TraceOf(tool)), 0)
            == |Suspended(w.requests, tool)| + |Pick(w.log, LostOf(tool))|
  {
    BreakerInRun(p, r, n, tool);
    RecordCounts(r.worlds[n].log, tool);
    InFlightCounts(p.breaker, Breaking.FRESH, Pick(r.worlds[n].log, TraceOf(tool)));
  }

  // ----- quotas --------------------------------------------------------------------------------------

  /** In any half-open window of the quota's length, wherever on the time line it ends, a user passes
      the rate stage at most `max_requests` times, over requests, listings and management together;
      so at most that many upstream calls were rate-checked in it. */
  lemma CallsPerWindow(p: Policy, r: Behaviour, n: nat, user: Text, t: real)
    requires IsRun(p, r) && n < |r.worlds|
    ensures var log, lo := r.worlds[n].log, t - p.quota.window;
            && |Pick(log, CallsIn(user, lo, t))| <= |Limiting.Within(Pick(log, PassesOf(user)), lo, t)|
            && |Limiting.Within(Pick(log, PassesOf(user)), lo, t)| <= p.quota.maxRequests
  {
    var w, lo := r.worlds[n], t - p.quota.window;
    QuotaInRun(p, r, n, user, lo, t);
    PassesPerWindow(p, w.core.checks, w.log, w.now, user, t);
  }

  lemma PassesPerWindow(p: Policy, checks: seq<Limiting.Arrival>, log: seq<Event>, now: real, user: Text, t: real)
    requires RateTraced(p, checks, log, now, user)
    ensures |Limiting.Within(Pick(log, PassesOf(user)), t - p.quota.window, t)| <= p.quota.maxRequests
  {
    LimiterTheorems.WindowBound(p.quota, checks, user, t);
  }

  // ----- fail closed ---------------------------------------------------------------------------------

  /** Faults anywhere: the attempted audit records of requests are the answers, one for one and in
      order; a request has one answer once it is finished and none before; that answer is the one its own
      segments gave, run one after another on what its own actions delivered; and it is allowed only if
      all its guards held there, in order, and the response came through clean. */
  lemma FailClosed(p: Policy, r: Behaviour, n: nat, rid: nat)
    requires IsRun(p, r) && n < |r.worlds|
    ensures
      var w := r.worlds[n];
      && RequestSummaries(w.core.attempts) == Pick(w.log, AnswerSummaries())
      && Pick(w.log, ResultsOf(rid)) == AnswerIn(w.requests, rid)
      && (rid in w.requests ==> Sound(p, w.requests[rid]) && Went(p, r, n, rid, w.requests[rid]))
      && (rid in w.requests && w.requests[rid].Finished? ==>
            var Finished(req, result, _) := w.requests[rid];
            && (result.decision == ALLOW <==> result.response.Some?)
            && (result.decision == ALLOW ==> exists i, j, k :: k < n && AllowedAt(p, r, i, j, k, rid, req, result)))
  {
    RequestInRun(p, r, n, rid);
    WentInRun(p, r, n, rid);
    var w := r.worlds[n];
    if rid in w.requests && w.requests[rid].Finished? {
      var Finished(req, result, trail) := w.requests[rid];
      AnswersHold(p, r, n, rid, req, result, trail);
    }
  }

  /** The request arrived with action `i`, was delivered its tool list with action `j` and its reply with action
      `k`. The result names the caller whose session was valid on arrival, with the role of then and the risk of
      the tool, and holds the very response of the reply, whose text passed the output scan. */
  ghost predicate AllowedAt(p: Policy, r: Behaviour, i: int, j: int, k: int, rid: nat, req: Request, result: Result) {
    && 0 <= i < j < k < |r.actions| < |r.worlds|
    && var (arrive, fetch, reply) := (r.actions[i], r.actions[j], r.actions[k]);
    && arrive.Arrive? && arrive.rid == rid && arrive.req == req
    && fetch.GetTools? && fetch.rid == rid && fetch.fetched.Tools?
    && reply.GetReply? && reply.rid == rid && reply.reply.Replied?
    && EntryHolds(p, req, MomentAt(r, i)) && CallHolds(p, req, MomentAt(r, j), fetch.fetched.defs)
    && Scanning.Passes(p.scan, Scanning.Output, [reply.reply.response.text], 0)
    && var session := Auth.Validate(r.worlds[i].core.tables, req.sessionId, arrive.wall);
    && session.Ok?
    && result.decision == ALLOW && result.stage == AllowedStage && result.tool == req.tool
    && result.userId == Some(session.value.userId) && result.role == Some(session.value.role)
    && result.risk == Some(Risk.Classify(p.toolRisk, req.tool)) && result.retryAfter == None
    && result.response == Some(reply.reply.response)
  }

  lemma AnswersHold(p: Policy, r: Behaviour, n: nat, rid: nat, req: Request, result: Result, trail: Trail)
    requires HasEnded(p, r, n, rid, req, Returned(result), trail)
    ensures result.decision == ALLOW <==> result.response.Some?
    ensures result.decision == ALLOW ==> exists i, j, k :: k < n && AllowedAt(p, r, i, j, k, rid, req, result)
  {
    if i :| trail == NoTrail && i < n && EntersAt(p, r, i, rid, req, Returned(result)) {
      var a := r.actions[i];
      EntryAnswers(p, r.worlds[i].core, req, a.wall, a.now, a.faults);
    } else if j, ctx, began :| trail == NoTrail && j < n && HasBegun(p, r, j, rid, req, ctx, began)
                               && FetchesAt(p, r, j, rid, req, ctx, Returned(result)) {
      var a := r.actions[j];
      CallAnswers(p, r.worlds[j].core, req, ctx, a.fetched, a.wall, a.now, a.faults);
    } else {
      var k, ctx, began, fetched, tools :|
        && k < n && HasCalled(p, r, k, rid, req, ctx, began, fetched, tools)
        && DidReply(p, r, k, rid, req, ctx, Returned(result), began, fetched, tools, trail);
      ReplyHolds(p, r, k, rid, req, ctx, result, began, fetched, tools, trail);
    }
  }

  lemma ReplyHolds(p: Policy, r: Behaviour, k: int, rid: nat, req: Request, ctx: Ctx, result: Result, began: Moment,
      fetched: Moment, tools: seq<ToolDefinition>, trail: Trail)
    requires HasCalled(p, r, k, rid, req, ctx, began, fetched, tools)
    requires DidReply(p, r, k, rid, req, ctx, Returned(result), began, fetched, tools, trail)
    ensures result.decision == ALLOW <==> result.response.Some?
    ensures result.decision == ALLOW ==> exists i, j :: AllowedAt(p, r, i, j, k, rid, req, result)
  {
    var a := r.actions[k];
    ReplyAnswers(p, r.worlds[k].core, req, ctx, a.reply, a.wall, a.now, a.faults);
    var j :| j < k && HasBegun(p, r, j, rid, req, ctx, began) && DidCall(p, r, j, rid, req, ctx, fetched, tools);
    var i :| i < j && DidBegin(p, r, i, rid, req, ctx, began);
    ArrivalHolds(p, r, i, rid, req, ctx, began);
    FetchHolds(p, r, j, rid, req, ctx, fetched, tools);
    if result.decision == ALLOW {
      assert AllowedAt(p, r, i, j, k, rid, req, result);
    }
  }

  lemma ArrivalHolds(p: Policy, r: Behaviour, i: int, rid: nat, req: Request, ctx: Ctx, began: Moment)
    requires DidBegin(p, r, i, rid, req, ctx, began)
    ensures EntryHolds(p, req, MomentAt(r, i)) && Knows(p, req, MomentAt(r, i), ctx)
  {
    var a := r.actions[i];
    EntryAnswers(p, r.worlds[i].core, req, a.wall, a.now, a.faults);
    EntryHoldsIff(p, req, MomentAt(r, i));
  }

  lemma FetchHolds(p: Policy, r: Behaviour, j: int, rid: nat, req: Request, ctx: Ctx, fetched: Moment,
      tools: seq<ToolDefinition>)
    requires DidCall(p, r, j, rid, req, ctx, fetched, tools)
    ensures CallHolds(p, req, MomentAt(r, j), tools)
  {
    var a := r.actions[j];
    CallAnswers(p, r.worlds[j].core, req, ctx, a.fetched, a.wall, a.now, a.faults);
    CallHoldsIff(p, req, MomentAt(r, j), tools);
  }

  lemma {:induction false} WentInRun(p: Policy, r: Behaviour, n: nat, rid: nat)
    requires IsRun(p, r) && n < |r.worlds|
    ensures var w := r.worlds[n]; rid in w.requests ==> Went(p, r, n, rid, w.requests[rid])
  {
    if n > 0 {
      WentInRun(p, r, n - 1, rid);
      assert Happens(p, r, n - 1);
      WentStep(p, r, n - 1, rid);
    }
  }

  // ----- sessions ------------------------------------------------------------------------------------

  /** A request whose validation does not raise is turned away as unauthenticated if and only if its
      session is not live on arrival: no login issued it, or it was revoked since, or its time is over. */
  lemma SessionsGateRequests(p: Policy, r: Behaviour, i: nat)
    requires IsRun(p, r) && i < |r.actions| && r.actions[i].Arrive? && AtValidate !in r.actions[i].faults
    ensures
      var a, w := r.actions[i], r.worlds[i];
      var outcome := Entry(p, w.core, a.req, a.wall, a.now, a.faults).1;
      outcome.Returned? && outcome.result.stage == Authentication
      <==> !Auth.Live(SignIns(w.log), p.sessionTtl, a.req.sessionId, a.wall)
  {
    var a, w := r.actions[i], r.worlds[i];
    SessionsInRun(p, r, i);
    Auth.ValidIffLive(w.core.tables, SignIns(w.log), p.sessionTtl, a.req.sessionId, a.wall);
    EntryInOrder(p, w.core, a.req, a.wall, a.now, a.faults);
  }

  /** Every allowed request came with a session that was live when it arrived, by its own reading of the
      wall clock, and is answered in the name of the user who logged in. */
  lemma AllowedSessionsAreLive(p: Policy, r: Behaviour, n: nat, rid: nat)
    requires IsRun(p, r) && n < |r.worlds| && rid in r.worlds[n].requests
    requires r.worlds[n].requests[rid].Finished? && r.worlds[n].requests[rid].result.decision == ALLOW
    ensures
      var Finished(req, result, _) := r.worlds[n].requests[rid];
      exists i ::
        && 0 <= i < n && r.actions[i].Arrive? && r.actions[i].rid == rid && r.actions[i].req == req
        && LiveFor(p, r.worlds[i].log, req.sessionId, result.userId, r.actions[i].wall)
  {
    var Finished(req, result, trail) := r.worlds[n].requests[rid];
    FailClosed(p, r, n, rid);
    var i, ctx := ArrivalOf(p, r, n, rid, req, result, trail);
    SessionsInRun(p, r, i);
    var t, log := r.worlds[i].core.tables, SignIns(r.worlds[i].log);
    EntryHoldsIff(p, req, MomentAt(r, i));
    Auth.ValidIffLive(t, log, p.sessionTtl, req.sessionId, r.actions[i].wall);
  }

  /** A login of this user issued the id, no revocation followed, and its time is not over. */
  ghost predicate LiveFor(p: Policy, log: seq<Event>, id: Text, user: Option<Text>, wall: real) {
    var signIns := SignIns(log);
    && Auth.Live(signIns, p.sessionTtl, id, wall)
    && exists j :: Auth.IssuedAt(signIns, j, id) && user == Some(signIns[j].userId)
  }

  /** An allowed request's own arrival. */
  lemma ArrivalOf(p: Policy, r: Behaviour, n: nat, rid: nat, req: Request, result: Result, trail: Trail)
    returns (i: nat, ctx: Ctx)
    requires trail.Trail? && HasEnded(p, r, n, rid, req, Returned(result), trail)
    ensures i < n && DidBegin(p, r, i, rid, req, ctx, trail.began)
  {
    var k, c, began, fetched, tools :|
      && k < n && HasCalled(p, r, k, rid, req, c, began, fetched, tools)
      && DidReply(p, r, k, rid, req, c, Returned(result), began, fetched, tools, trail);
    var j :| j < k && HasBegun(p, r, j, rid, req, c, began) && DidCall(p, r, j, rid, req, c, fetched, tools);
    var i0 :| i0 < j && DidBegin(p, r, i0, rid, req, c, began);
    i, ctx := i0, c;
  }
}
