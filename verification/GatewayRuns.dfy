/** Whole runs: many requests interleave with each other, with approvals and re-approvals, with
    other rate-limited calls, with account changes, and with an upstream that may answer anything.
    A run is any sequence of actions; an action that is not enabled changes nothing. */
module GatewayRuns {
  import opened Basics
  import opened Storage
  import opened Integrity
  import opened Gateway
  import opened GatewayAnswers
  import Scanning
  import Risk
  import Limiting = RateLimiting
  import Breaking = CircuitBreaking
  import Auth = Authentication

  /** The state and the clocks a segment started from. */
  datatype Moment = Moment(core: Core, wall: real, now: real)

  /** The moments of a request that was allowed, with what the upstream sent. */
  datatype Trail = NoTrail | Trail(began: Moment, fetched: Moment, tools: seq<ToolDefinition>, response: Response)

  datatype Phase =
    | Fetching(req: Request, ctx: Ctx, began: Moment)
    | Calling(req: Request, ctx: Ctx, began: Moment, fetched: Moment, tools: seq<ToolDefinition>)
    | Finished(req: Request, result: Result, trail: Trail)
    | Cancelled(req: Request)

  /** What happens in a run, for the record. */
  datatype Event =
    | RatePassed(user: Text, time: real)
    | Asked(rid: nat, tool: Text, time: real, granted: bool)
    | Called(rid: nat, tool: Text, tools: seq<ToolDefinition>, user: Text, rateTime: real)
    | Told(rid: nat, tool: Text, ok: bool, time: real)
    | Lost(rid: nat, tool: Text)
    | Pinned(tool: Text, defn: ToolDefinition, approver: Auth.UserSession)
    | Answered(rid: nat, result: Result)
    | SignedIn(id: Text, userId: Text, time: real)
    | SignedOut(id: Text)

  datatype World = World(core: Core, now: real, requests: map<nat, Phase>, log: seq<Event>)

  datatype Action =
    | Arrive(rid: nat, req: Request, wall: real, now: real, faults: set<Site>)
    | GetTools(rid: nat, fetched: Fetched, wall: real, now: real, faults: set<Site>)
    | GetReply(rid: nat, reply: Reply, wall: real, now: real, faults: set<Site>)
    | Approve(approver: Auth.UserSession, names: Option<seq<Text>>, tools: seq<ToolDefinition>, wall: real, now: real,
              fault: Option<ApprovalFault>)
    | Access(sessionId: Text, manager: bool, wall: real, now: real)
    | Login(userId: Text, apiKey: Text, token: Text, wall: real, now: real)
    | Logout(sessionId: Text, now: real)
    | Accounts(users: map<Text, User>, now: real)

  /** A request starts once and its answers come in turn; a token has its fixed length; a user is added
      or given another role or key, never removed. */
  predicate Enabled(w: World, a: Action) {
    && w.now <= a.now
    && match a
       case Arrive(rid, _, _, _, _) => rid !in w.requests
       case GetTools(rid, _, _, _, _) => rid in w.requests && w.requests[rid].Fetching?
       case GetReply(rid, _, _, _, _) => rid in w.requests && w.requests[rid].Calling?
       case Approve(_, _, _, _, _, _) => true
       case Access(_, _, _, _) => true
       case Login(_, _, token, _, _) => |token| == Auth.TOKEN_LEN
       case Logout(_, _) => true
       case Accounts(users, _) => w.core.tables.users.Keys <= users.Keys
  }

  // ----- steps -----------------------------------------------------------------------------------

  function UserOf(core: Core, req: Request, wall: real): Text {
    var session := Auth.Validate(core.tables, req.sessionId, wall);
    if session.Ok? then session.value.userId else []
  }

  function ArriveStep(p: Policy, w: World, rid: nat, req: Request, wall: real, now: real, faults: set<Site>): World {
    var (core, r) := Entry(p, w.core, req, wall, now, faults);
    var k := FirstStop(EntryGuards(p, w.core, req, wall, now, faults));
    var log := w.log + (if k >= 2 then [RatePassed(UserOf(w.core, req, wall), now)] else []);
    match r
    case AwaitingTools(ctx) => World(core, now, w.requests[rid := Fetching(req, ctx, Moment(w.core, wall, now))], log)
    case Returned(result) =>
      World(core, now, w.requests[rid := Finished(req, result, NoTrail)], log + [Answered(rid, result)])
    case _ => w
  }

  function ToolsStep(p: Policy, w: World, rid: nat, fetched: Fetched, wall: real, now: real, faults: set<Site>): World
    requires rid in w.requests && w.requests[rid].Fetching?
  {
    var Fetching(req, ctx, began) := w.requests[rid];
    var (core, r) := AfterTools(p, w.core, req, ctx, fetched, wall, now, faults);
    if fetched.FetchCancelled? then World(core, now, w.requests[rid := Cancelled(req)], w.log) else
      var k := FirstStop(CallGuards(p, w.core, req, fetched, now, faults));
      var log := w.log + (if k < 3 || AtBreaker in faults then [] else [Asked(rid, req.tool, now, k == 4)]);
      match r
      case AwaitingReply(ctx) =>
        World(core, now, w.requests[rid := Calling(req, ctx, began, Moment(w.core, wall, now), fetched.ToolList())],
              log + [Called(rid, req.tool, fetched.ToolList(), UserOf(began.core, req, began.wall), began.now)])
      case Returned(result) =>
        World(core, now, w.requests[rid := Finished(req, result, NoTrail)], log + [Answered(rid, result)])
      case _ => w
  }

  function TrailOf(reply: Reply, result: Result, began: Moment, fetched: Moment, tools: seq<ToolDefinition>): Trail {
    if result.decision == ALLOW && reply.Replied? then Trail(began, fetched, tools, reply.response) else NoTrail
  }

  function ReplyStep(p: Policy, w: World, rid: nat, reply: Reply, wall: real, now: real, faults: set<Site>): World
    requires rid in w.requests && w.requests[rid].Calling?
  {
    var Calling(req, ctx, began, fetched, tools) := w.requests[rid];
    var (core, r) := AfterReply(p, w.core, req, ctx, reply, wall, now, faults);
    var log := w.log + [if AtRecord in faults then Lost(rid, req.tool)
                        else Told(rid, req.tool, reply.Replied? && !reply.response.isError, now)];
    match r
    case Returned(result) =>
      var trail := TrailOf(reply, result, began, fetched, tools);
      World(core, now, w.requests[rid := Finished(req, result, trail)], log + [Answered(rid, result)])
    case _ => World(core, now, w.requests[rid := Cancelled(req)], log)
  }

  function PinEvents(p: Policy, pins: map<Text, Pin>, tools: seq<ToolDefinition>, names: seq<Text>,
      approver: Auth.UserSession): seq<Event> {
    if names == [] then [] else
      var most, name := names[..|names| - 1], names[|names| - 1];
      PinEvents(p, pins, tools, most, approver)
      + (if Accepted(OutcomeOf(p, pins, tools, name).status) then [Pinned(name, Matches(tools, name)[0], approver)]
         else [])
  }

  function ApproveStep(p: Policy, w: World, approver: Auth.UserSession, names: Option<seq<Text>>,
      tools: seq<ToolDefinition>, wall: real, now: real, fault: Option<ApprovalFault>): World
  {
    if !CanManage(p, approver.role) then w.(now := now) else
      var wanted := Wanted(names, tools);
      World(ApprovalOf(p, w.core, approver, wanted, tools, wall, fault), now, w.requests,
            w.log + PinEvents(p, w.core.tables.pins, tools, wanted[..PinnedCount(fault, |wanted|)], approver))
  }

  function AccessStep(p: Policy, w: World, sessionId: Text, manager: bool, wall: real, now: real): World {
    var (core, r) := AccessOf(p, w.core, sessionId, manager, wall, now);
    var session := Auth.Validate(w.core.tables, sessionId, wall);
    w.(core := core, now := now,
       log := w.log + (if session.Ok? && !r.Limited? then [RatePassed(session.value.userId, now)] else []))
  }

  function LoginStep(p: Policy, w: World, userId: Text, apiKey: Text, token: Text, wall: real, now: real): World {
    var t := w.core.tables;
    if Auth.LoginOf(t, userId, apiKey, token, wall, p.sessionTtl).Err? then w.(now := now) else
      var sessions := Auth.WithSession(t.sessions, token, userId, wall, p.sessionTtl);
      w.(core := w.core.(tables := t.(sessions := sessions)), now := now,
         log := w.log + [SignedIn(token, userId, wall)])
  }

  function LogoutStep(w: World, sessionId: Text, now: real): World {
    var t := w.core.tables;
    w.(core := w.core.(tables := t.(sessions := Auth.WithRevocation(t.sessions, sessionId))), now := now,
       log := w.log + [SignedOut(sessionId)])
  }

  function Step(p: Policy, w: World, a: Action): World {
    if !Enabled(w, a) then w else
    match a
    case Arrive(rid, req, wall, now, faults) => ArriveStep(p, w, rid, req, wall, now, faults)
    case GetTools(rid, fetched, wall, now, faults) => ToolsStep(p, w, rid, fetched, wall, now, faults)
    case GetReply(rid, reply, wall, now, faults) => ReplyStep(p, w, rid, reply, wall, now, faults)
    case Approve(approver, names, tools, wall, now, fault) =>
      ApproveStep(p, w, approver, names, tools, wall, now, fault)
    case Access(sessionId, manager, wall, now) => AccessStep(p, w, sessionId, manager, wall, now)
    case Login(userId, apiKey, token, wall, now) => LoginStep(p, w, userId, apiKey, token, wall, now)
    case Logout(sessionId, now) => LogoutStep(w, sessionId, now)
    case Accounts(users, now) => w.(core := w.core.(tables := w.core.tables.(users := users)), now := now)
  }

  /** Every step is the operation its action names, at that moment, on the state it finds; a disabled action does
      nothing. */
  lemma StepIsOperation(p: Policy, w: World, a: Action)
    ensures
      var after, t := Step(p, w, a), w.core.tables;
      if !Enabled(w, a) then after == w
      else
        && after.now == a.now
        && match a
           case Arrive(rid, req, wall, now, faults) => after.core == Entry(p, w.core, req, wall, now, faults).0
           case GetTools(rid, fetched, wall, now, faults) =>
             after.core == AfterTools(p, w.core, w.requests[rid].req, w.requests[rid].ctx, fetched, wall, now, faults).0
           case GetReply(rid, reply, wall, now, faults) =>
             after.core == AfterReply(p, w.core, w.requests[rid].req, w.requests[rid].ctx, reply, wall, now, faults).0
           case Approve(approver, names, tools, wall, now, fault) =>
             after.core == (if approver.role in p.roles && p.roles[approver.role].canManage
                            then ApprovalOf(p, w.core, approver, Wanted(names, tools), tools, wall, fault) else w.core)
           case Access(id, manager, wall, now) => after.core == AccessOf(p, w.core, id, manager, wall, now).0
           case Login(userId, key, token, wall, now) =>
             after.core.tables
             == (if Auth.LoginOf(t, userId, key, token, wall, p.sessionTtl).Ok?
                 then t.(sessions := t.sessions[Sha256(token) := Session(userId, wall, wall + p.sessionTtl, false)])
                 else t)
           case Logout(id, now) =>
             after.core.tables
             == (if Sha256(id) in t.sessions
                 then t.(sessions := t.sessions[Sha256(id) := t.sessions[Sha256(id)].(revoked := true)]) else t)
           case Accounts(users, now) => after.core.tables == t.(users := users)
  {
    if Enabled(w, a) && a.GetTools? {
      ToolsStepIs(p, w, a.rid, a.fetched, a.wall, a.now, a.faults);
    }
  }

  lemma ToolsStepIs(p: Policy, w: World, rid: nat, fetched: Fetched, wall: real, now: real, faults: set<Site>)
    requires rid in w.requests && w.requests[rid].Fetching?
    ensures ToolsStep(p, w, rid, fetched, wall, now, faults).core
            == AfterTools(p, w.core, w.requests[rid].req, w.requests[rid].ctx, fetched, wall, now, faults).0
    ensures ToolsStep(p, w, rid, fetched, wall, now, faults).now == now
  {
    if !fetched.FetchCancelled? {
      ToolsFacts(p, w.core, w.requests[rid].req, w.requests[rid].ctx, fetched, wall, now, faults);
    }
  }

  /** A run: the worlds before, between and after its actions. */
  datatype Behaviour = Behaviour(worlds: seq<World>, actions: seq<Action>)

  ghost predicate Happens(p: Policy, r: Behaviour, i: nat)
    requires |r.worlds| == |r.actions| + 1 && i < |r.actions|
  {
    r.worlds[i + 1] == Step(p, r.worlds[i], r.actions[i])
  }

  // ----- reading the record ------------------------------------------------------------------------

  function Found<T>(o: Option<T>): seq<T> { if o.Some? then [o.value] else [] }

  /** The values `f` finds in the log, in order. */
  function Pick<T>(log: seq<Event>, f: Event -> Option<T>): seq<T> {
    if log == [] then [] else Pick(log[..|log| - 1], f) + Found(f(log[|log| - 1]))
  }

  lemma PickNext<T>(log: seq<Event>, e: Event, f: Event -> Option<T>)
    ensures Pick(log + [e], f) == Pick(log, f) + Found(f(e))
  {
    assert (log + [e])[..|log|] == log;
  }

  lemma {:induction false} PickConcat<T>(log: seq<Event>, es: seq<Event>, f: Event -> Option<T>)
    ensures Pick(log + es, f) == Pick(log, f) + Pick(es, f)
    decreases |es|
  {
    if es == [] {
      assert log + es == log;
    } else {
      var most, e := es[..|es| - 1], es[|es| - 1];
      assert log + es == (log + most) + [e];
      PickConcat(log, most, f);
      PickNext(log + most, e, f);
      ConcatAssoc(Pick(log, f), Pick(most, f), Found(f(e)));
    }
  }

  ghost predicate Blind<T>(es: seq<Event>, f: Event -> Option<T>) {
    forall i :: 0 <= i < |es| ==> f(es[i]) == None
  }

  /** Events in which `f` finds nothing change nothing. */
  lemma {:induction false} PickNothing<T>(log: seq<Event>, es: seq<Event>, f: Event -> Option<T>)
    requires Blind(es, f)
    ensures Pick(log + es, f) == Pick(log, f)
    decreases |es|
  {
    if es == [] {
      assert log + es == log;
    } else {
      var most, e := es[..|es| - 1], es[|es| - 1];
      assert log + es == (log + most) + [e];
      assert f(es[|es| - 1]) == None;
      PickNothing(log, most, f);
      PickNext(log + most, e, f);
    }
  }

  ghost predicate OnlyPins(es: seq<Event>) {
    forall i :: 0 <= i < |es| ==> es[i].Pinned?
  }

  lemma {:induction false} PinEventsOnlyPin(p: Policy, pins: map<Text, Pin>, tools: seq<ToolDefinition>,
      names: seq<Text>, approver: Auth.UserSession)
    ensures OnlyPins(PinEvents(p, pins, tools, names, approver))
  {
    if names != [] {
      PinEventsOnlyPin(p, pins, tools, names[..|names| - 1], approver);
    }
  }

  // ----- what the segments change -------------------------------------------------------------------

  /** A denial never carries a response, and is no other kind of record. */
  ghost predicate Denies(req: Request, result: Result) {
    && result.tool == req.tool && result.decision == DENY && result.response == None
    && result.stage != Approval && result.stage != AllowedStage
  }

  /** What a result and its audit record have in common. */
  datatype Summary = Summary(
    tool: Text, userId: Option<Text>, role: Option<Text>, risk: Option<RiskLevel>, decision: Decision, stage: Stage)

  function SummaryOf(r: Result): Summary { Summary(r.tool, r.userId, r.role, r.risk, r.decision, r.stage) }

  function RowSummary(row: AuditRow): Summary {
    Summary(row.tool, row.userId, row.role, row.risk, row.decision, row.stage)
  }

  /** One audit attempt, which says what the result says. */
  ghost predicate AuditedAs(before: Core, after: Core, result: Result) {
    exists row :: after.attempts == before.attempts + [row] && RowSummary(row) == SummaryOf(result)
  }

  ghost predicate SameAccountsAndPins(before: Core, after: Core) {
    && after.tables.users == before.tables.users && after.tables.sessions == before.tables.sessions
    && after.tables.pins == before.tables.pins
  }

  lemma ConcludeFacts(core: Core, req: Request, ctx: Ctx, result: Result, wall: real, faults: set<Site>)
    requires result.tool == req.tool && result.userId == ctx.userId && result.role == ctx.role
    ensures var (after, r) := Conclude(core, req, ctx, result, wall, faults);
            && r == Returned(result) && AuditedAs(core, after, result) && SameAccountsAndPins(core, after)
            && after.checks == core.checks && after.breakers == core.breakers
  {
    var row := RowOf(req, ctx, result, wall);
    assert Conclude(core, req, ctx, result, wall, faults).0.attempts == core.attempts + [row];
  }

  lemma EntryFacts(p: Policy, core: Core, req: Request, wall: real, now: real, faults: set<Site>)
    ensures
      var gs := EntryGuards(p, core, req, wall, now, faults);
      var k, user := FirstStop(gs), UserOf(core, req, wall);
      var (after, r) := Entry(p, core, req, wall, now, faults);
      && after.breakers == core.breakers && SameAccountsAndPins(core, after)
      && (after.checks == core.checks || after.checks == core.checks + [Limiting.Arrival(user, now)])
      && (k >= 2 ==> && after.checks == core.checks + [Limiting.Arrival(user, now)]
                     && RateAnswer(p, core, user, now).Allowed?)
      && (k < 2 && after.checks != core.checks ==> RateAnswer(p, core, user, now).Refused?)
      && (k == |gs| ==> && k >= 2 && r.AwaitingTools? && r.ctx == EntryCtx(p, core, req, wall, 5)
                        && after.attempts == core.attempts)
      && (k < |gs| ==> r.Returned? && Denies(req, r.result) && AuditedAs(core, after, r.result))
  {
    var gs := EntryGuards(p, core, req, wall, now, faults);
    var k := FirstStop(gs);
    EntryInOrder(p, core, req, wall, now, faults);
    if k < |gs| {
      var ctx := EntryCtx(p, core, req, wall, k);
      ConcludeFacts(Counted(core, req, wall, now, k, faults), req, ctx, Denial(req, ctx, gs[k]), wall, faults);
    }
  }

  lemma ToolsFacts(p: Policy, core: Core, req: Request, ctx: Ctx, fetched: Fetched, wall: real, now: real,
      faults: set<Site>)
    requires !fetched.FetchCancelled?
    ensures
      var gs := CallGuards(p, core, req, fetched, now, faults);
      var k := FirstStop(gs);
      var (after, r) := AfterTools(p, core, req, ctx, fetched, wall, now, faults);
      && after.checks == core.checks && SameAccountsAndPins(core, after)
      && after.breakers == (if k < 3 || AtBreaker in faults then core.breakers
                            else Ask(p, core, req.tool, now).breakers)
      && (k >= 3 && AtBreaker !in faults ==> (k == 4 <==> Breaking.Allow(p.breaker, BreakerOf(core, req.tool), now).1))
      && (k == |gs| <==> k == 4)
      && (k == 4 ==> && AtBreaker !in faults && r == AwaitingReply(ctx) && after.attempts == core.attempts
                     && fetched.Tools? && |Matches(fetched.defs, req.tool)| == 1
                     && Verify(core.tables.pins, Matches(fetched.defs, req.tool)[0]).OkIntegrity?)
      && (k < |gs| ==> r.Returned? && Denies(req, r.result) && AuditedAs(core, after, r.result))
  {
    var gs := CallGuards(p, core, req, fetched, now, faults);
    var k := FirstStop(gs);
    CallInOrder(p, core, req, fetched, now, faults);
    if k < |gs| {
      var asked := if k < 3 || AtBreaker in faults then core else Ask(p, core, req.tool, now);
      ConcludeFacts(asked, req, ctx, Denial(req, ctx, gs[k]), wall, faults);
    }
  }

  lemma ReplyFacts(p: Policy, core: Core, req: Request, ctx: Ctx, reply: Reply, wall: real, now: real,
      faults: set<Site>)
    ensures
      var (after, r) := AfterReply(p, core, req, ctx, reply, wall, now, faults);
      && after.checks == core.checks && SameAccountsAndPins(core, after)
      && after.breakers == (if AtRecord in faults then core.breakers else Tell(p, core, req.tool, reply, now).breakers)
      && (r.Escaped? || r.Returned?)
      && (r.Escaped? ==> after.attempts == core.attempts)
      && (r.Returned? ==> AuditedAs(core, after, r.result)
                          && (Denies(req, r.result)
                              || (&& reply.Replied? && AtRecord !in faults && AtOutputScan !in faults
                                  && Scanning.Passes(p.scan, Scanning.Output, [reply.response.text], 0)
                                  && r.result == Result(ALLOW, AllowedStage, req.tool, ctx.userId, ctx.role, ctx.risk,
                                                        None, Some(reply.response)))))
  {
    var gs := ReplyGuards(p, reply, faults);
    var k := FirstStop(gs);
    var told := if AtRecord in faults then core else Tell(p, core, req.tool, reply, now);
    ReplyInOrder(p, reply, faults);
    if reply.Replied? {
      OutputCleanIff(p, reply.response.text);
    }
    if k < |gs| {
      ConcludeFacts(told, req, ctx, Denial(req, ctx, gs[k]), wall, faults);
    } else if reply.Replied? {
      ConcludeFacts(told, req, ctx, AllowResult(req, ctx, reply.response), wall, faults);
    }
  }

  // ----- the shapes of steps -------------------------------------------------------------------------

  /** The ways a step can change the world. */
  datatype Shape =
    | Quiet
    | Enters(rid: nat, req: Request, ctx: Ctx, wall: real, user: Text, passed: bool, result: Option<Result>)
    | CancelsFetch(rid: nat)
    | DeniesCall(rid: nat, tool: Text, asked: bool, denial: Result)
    | Calls(rid: nat, tool: Text, wall: real, tools: seq<ToolDefinition>, user: Text, rateTime: real)
    | Reports(rid: nat, tool: Text, lost: bool, ok: bool, result: Option<Result>, trail: Trail)
    | Approves(approver: Auth.UserSession, names: seq<Text>, tools: seq<ToolDefinition>, wall: real, attempted: nat)
    | Counts(user: Text, passed: bool)
    | SignsIn(id: Text, userId: Text, time: real)
    | SignsOut(id: Text)

  /** All guards before the fetch hold at this moment. */
  ghost predicate EntryHolds(p: Policy, req: Request, m: Moment) {
    var gs := EntryGuards(p, m.core, req, m.wall, m.now, {});
    FirstStop(gs) == |gs|
  }

  /** All guards between fetch and call hold at this moment. */
  ghost predicate CallHolds(p: Policy, req: Request, m: Moment, tools: seq<ToolDefinition>) {
    var gs := CallGuards(p, m.core, req, Tools(tools), m.now, {});
    FirstStop(gs) == |gs|
  }

  /** What the guards before the fetch come to. */
  lemma EntryHoldsIff(p: Policy, req: Request, m: Moment)
    ensures var session := Auth.Validate(m.core.tables, req.sessionId, m.wall);
            EntryHolds(p, req, m)
            <==> && session.Ok? && ValidToolName(req.tool)
                 && Limiting.Decide(p.quota, Limiting.Admitted(p.quota, m.core.checks, session.value.userId),
                                    m.now).Allowed?
                 && session.value.role in p.roles && req.tool in p.roles[session.value.role].allowedTools
                 && Risk.Rank(Risk.Classify(p.toolRisk, req.tool)) <= Risk.Rank(p.roles[session.value.role].maxRisk)
  {
    EntryInOrder(p, m.core, req, m.wall, m.now, {});
  }

  /** What the guards between fetch and call come to. */
  lemma CallHoldsIff(p: Policy, req: Request, m: Moment, tools: seq<ToolDefinition>)
    ensures CallHolds(p, req, m, tools)
            <==> && (exists d :: && OnlyOne(tools, req.tool, d) && req.tool in m.core.tables.pins
                                 && m.core.tables.pins[req.tool].fingerprint == Fingerprint(d))
                 && Scanning.Passes(p.scan, Scanning.Input, Scanning.MemberTexts(req.arguments),
                                    Scanning.MembersHeight(req.arguments))
                 && Breaking.Allow(p.breaker, if req.tool in m.core.breakers then m.core.breakers[req.tool]
                                              else Breaking.FRESH, m.now).1
  {
    CallInOrder(p, m.core, req, Tools(tools), m.now, {});
    InputCleanIff(p, req);
    MatchOrNot(tools, req.tool);
  }

  lemma EntryHoldsWithoutFaults(p: Policy, core: Core, req: Request, wall: real, now: real, faults: set<Site>)
    requires FirstStop(EntryGuards(p, core, req, wall, now, faults)) == |EntryGuards(p, core, req, wall, now, faults)|
    ensures EntryHolds(p, req, Moment(core, wall, now))
  {
    EntryInOrder(p, core, req, wall, now, faults);
    EntryInOrder(p, core, req, wall, now, {});
  }

  lemma CallHoldsWithoutFaults(p: Policy, core: Core, req: Request, fetched: Fetched, wall: real, now: real,
      faults: set<Site>)
    requires fetched.Tools? && FirstStop(CallGuards(p, core, req, fetched, now, faults)) == 4
    ensures CallHolds(p, req, Moment(core, wall, now), fetched.defs)
  {
    CallInOrder(p, core, req, fetched, now, faults);
    CallInOrder(p, core, req, Tools(fetched.defs), now, {});
  }

  function ToldBreaker(p: Policy, b: Breaking.Breaker, ok: bool, now: real): Breaking.Breaker {
    if ok then Breaking.Succeed(b) else Breaking.Fail(p.breaker, b, now)
  }

  /** A rate check was made and answered, or failed before it counted. */
  ghost predicate RateCounted(p: Policy, before: Core, after: Core, user: Text, now: real, passed: bool) {
    || (after.checks == before.checks && !passed)
    || (&& after.checks == before.checks + [Limiting.Arrival(user, now)]
        && (passed <==> RateAnswer(p, before, user, now).Allowed?))
  }

  function AnswerEvents(rid: nat, result: Option<Result>): seq<Event> {
    if result.Some? then [Answered(rid, result.value)] else []
  }

  function PassEvents(user: Text, now: real, passed: bool): seq<Event> {
    if passed then [RatePassed(user, now)] else []
  }

  function AskEvents(rid: nat, tool: Text, now: real, asked: bool): seq<Event> {
    if asked then [Asked(rid, tool, now, false)] else []
  }

  function ReportEvent(rid: nat, tool: Text, lost: bool, ok: bool, now: real): Event {
    if lost then Lost(rid, tool) else Told(rid, tool, ok, now)
  }

  /** Allowed: the last guards hold too. */
  ghost predicate AllowedBy(p: Policy, req: Request, ctx: Ctx, result: Result, trail: Trail) {
    && trail.Trail? && Scanning.Passes(p.scan, Scanning.Output, [trail.response.text], 0)
    && result == Result(ALLOW, AllowedStage, req.tool, ctx.userId, ctx.role, ctx.risk, None, Some(trail.response))
  }

  /** Is the step one of a request? */
  predicate OfRequest(s: Shape) { s.Enters? || s.CancelsFetch? || s.DeniesCall? || s.Calls? || s.Reports? }

  /** What a step adds to the record: first what happened, then what came of it. */
  function FirstEvents(p: Policy, pins: map<Text, Pin>, now: real, s: Shape): seq<Event> {
    match s
    case Enters(_, _, _, _, user, passed, _) => PassEvents(user, now, passed)
    case Counts(user, passed) => PassEvents(user, now, passed)
    case DeniesCall(rid, tool, asked, _) => AskEvents(rid, tool, now, asked)
    case Calls(rid, tool, _, _, _, _) => [Asked(rid, tool, now, true)]
    case Reports(rid, tool, lost, ok, _, _) => [ReportEvent(rid, tool, lost, ok, now)]
    case Approves(approver, names, tools, _, _) => PinEvents(p, pins, tools, names, approver)
    case SignsIn(id, userId, time) => [SignedIn(id, userId, time)]
    case SignsOut(id) => [SignedOut(id)]
    case _ => []
  }

  function LastEvents(s: Shape): seq<Event> {
    match s
    case Enters(rid, _, _, _, _, _, result) => AnswerEvents(rid, result)
    case DeniesCall(rid, _, _, denial) => [Answered(rid, denial)]
    case Calls(rid, tool, _, tools, user, rateTime) => [Called(rid, tool, tools, user, rateTime)]
    case Reports(rid, _, _, _, result, _) => AnswerEvents(rid, result)
    case _ => []
  }

  ghost predicate FirstKind(s: Shape, es: seq<Event>) {
    forall i :: 0 <= i < |es| ==>
      var e := es[i];
      && !e.Called? && !e.Answered?
      && (e.RatePassed? ==> s.Enters? || s.Counts?) && (e.Pinned? ==> s.Approves?)
      && (e.SignedIn? ==> s.SignsIn?) && (e.SignedOut? ==> s.SignsOut?)
      && (e.Asked? ==> s.Calls? || (s.DeniesCall? && !e.granted)) && (e.Told? || e.Lost? ==> s.Reports?)
  }

  ghost predicate LastKind(s: Shape, es: seq<Event>) {
    forall i :: 0 <= i < |es| ==> es[i].Answered? || (es[i].Called? && s.Calls?)
  }

  lemma EventKinds(p: Policy, pins: map<Text, Pin>, now: real, s: Shape)
    ensures FirstKind(s, FirstEvents(p, pins, now, s)) && LastKind(s, LastEvents(s))
  {
    if s.Approves? {
      PinEventsOnlyPin(p, pins, s.tools, s.names, s.approver);
    }
  }

  ghost predicate Fits(p: Policy, w: World, after: World, s: Shape) {
    && w.now <= after.now && LogMoves(p, w, after, s)
    && ChecksMove(p, w.core, after.core, after.now, s) && BreakersMove(p, w.core, after.core, after.now, s)
    && PinsMove(p, w.core.tables.pins, after.core.tables.pins, s) && AttemptsMove(p, w.core, after.core, s)
    && RequestsMove(p, w, after, s) && AccountsMove(p, w.core.tables, after.core.tables, s)
  }

  ghost predicate LogMoves(p: Policy, w: World, after: World, s: Shape) {
    after.log == (w.log + FirstEvents(p, w.core.tables.pins, after.now, s)) + LastEvents(s)
  }

  ghost predicate ChecksMove(p: Policy, before: Core, after: Core, now: real, s: Shape) {
    match s
    case Enters(_, _, _, _, user, passed, _) => RateCounted(p, before, after, user, now, passed)
    case Counts(user, passed) => RateCounted(p, before, after, user, now, passed)
    case _ => after.checks == before.checks
  }

  ghost predicate BreakersMove(p: Policy, before: Core, after: Core, now: real, s: Shape) {
    match s
    case DeniesCall(_, tool, asked, _) =>
      && after.breakers == (if asked then Ask(p, before, tool, now).breakers else before.breakers)
      && (asked ==> !Breaking.Allow(p.breaker, BreakerOf(before, tool), now).1)
    case Calls(_, tool, _, _, _, _) =>
      after.breakers == Ask(p, before, tool, now).breakers && Breaking.Allow(p.breaker, BreakerOf(before, tool), now).1
    case Reports(_, tool, lost, ok, _, _) =>
      after.breakers == if lost then before.breakers
                        else before.breakers[tool := ToldBreaker(p, BreakerOf(before, tool), ok, now)]
    case _ => after.breakers == before.breakers
  }

  ghost predicate PinsMove(p: Policy, before: map<Text, Pin>, after: map<Text, Pin>, s: Shape) {
    match s
    case Approves(approver, names, tools, wall, _) =>
      && CanManage(p, approver.role) && Distinct(names)
      && after == PinsAfter(p, before, tools, names, approver.userId, wall)
    case Calls(_, tool, _, tools, _, _) =>
      after == before && |Matches(tools, tool)| == 1 && Verify(before, Matches(tools, tool)[0]).OkIntegrity?
    case _ => after == before
  }

  ghost predicate AuditedIf(before: Core, after: Core, result: Option<Result>) {
    if result.None? then after.attempts == before.attempts
    else AuditedAs(before, after, result.value) && result.value.stage != Approval
  }

  ghost predicate AttemptsMove(p: Policy, before: Core, after: Core, s: Shape) {
    match s
    case Enters(_, _, _, _, _, _, result) => AuditedIf(before, after, result)
    case DeniesCall(_, _, _, denial) => AuditedIf(before, after, Some(denial))
    case Reports(_, _, _, _, result, _) => AuditedIf(before, after, result)
    case Approves(approver, names, tools, wall, attempted) =>
      && attempted <= |names|
      && after.attempts == before.attempts
                           + ApprovalRows(p, approver, Outcomes(p, before.tables.pins, tools, names[..attempted]), wall)
    case _ => after.attempts == before.attempts
  }

  ghost predicate AccountsMove(p: Policy, before: Tables, after: Tables, s: Shape) {
    match s
    case SignsIn(id, userId, time) =>
      && Sha256(id) !in before.sessions && |id| == Auth.TOKEN_LEN && userId in before.users
      && after.users == before.users
      && after.sessions == Auth.WithSession(before.sessions, id, userId, time, p.sessionTtl)
    case SignsOut(id) => after.users == before.users && after.sessions == Auth.WithRevocation(before.sessions, id)
    case _ => before.users.Keys <= after.users.Keys && after.sessions == before.sessions
  }

  ghost predicate RequestsMove(p: Policy, w: World, after: World, s: Shape) {
    match s
    case Enters(rid, req, ctx, wall, user, passed, result) =>
      && rid !in w.requests && user == UserOf(w.core, req, wall)
      && (match result
          case None =>
            var m := Moment(w.core, wall, after.now);
            && passed && ctx == EntryCtx(p, w.core, req, wall, 5) && EntryHolds(p, req, m)
            && after.requests == w.requests[rid := Fetching(req, ctx, m)]
          case Some(denial) =>
            Denies(req, denial) && after.requests == w.requests[rid := Finished(req, denial, NoTrail)])
    case CancelsFetch(rid) =>
      && rid in w.requests && w.requests[rid].Fetching?
      && after.requests == w.requests[rid := Cancelled(w.requests[rid].req)]
    case DeniesCall(rid, tool, _, denial) =>
      && rid in w.requests && w.requests[rid].Fetching?
      && var req := w.requests[rid].req;
      tool == req.tool && Denies(req, denial) && after.requests == w.requests[rid := Finished(req, denial, NoTrail)]
    case Calls(rid, tool, wall, tools, user, rateTime) =>
      && rid in w.requests && w.requests[rid].Fetching?
      && var Fetching(req, ctx, began) := w.requests[rid];
      && tool == req.tool && user == UserOf(began.core, req, began.wall) && rateTime == began.now
      && CallHolds(p, req, Moment(w.core, wall, after.now), tools)
      && after.requests == w.requests[rid := Calling(req, ctx, began, Moment(w.core, wall, after.now), tools)]
    case Reports(rid, tool, lost, _, result, trail) =>
      && rid in w.requests && w.requests[rid].Calling? && tool == w.requests[rid].req.tool
      && Ends(p, w.requests[rid], lost, result, trail)
      && var req := w.requests[rid].req;
      after.requests == w.requests[rid := if result.None? then Cancelled(req) else Finished(req, result.value, trail)]
    case _ => after.requests == w.requests
  }

  /** How a call can end: with a denial, with an allowed response, or cancelled. */
  ghost predicate Ends(p: Policy, phase: Phase, lost: bool, result: Option<Result>, trail: Trail)
    requires phase.Calling?
  {
    result.Some? ==>
      if Denies(phase.req, result.value) then trail == NoTrail
      else && !lost && AllowedBy(p, phase.req, phase.ctx, result.value, trail)
           && trail.began == phase.began && trail.fetched == phase.fetched && trail.tools == phase.tools
  }

  lemma ArriveFits(p: Policy, w: World, rid: nat, req: Request, wall: real, now: real, faults: set<Site>)
    returns (s: Shape)
    requires rid !in w.requests && w.now <= now
    ensures Fits(p, w, ArriveStep(p, w, rid, req, wall, now, faults), s)
  {
    var gs := EntryGuards(p, w.core, req, wall, now, faults);
    var k, user := FirstStop(gs), UserOf(w.core, req, wall);
    var r := Entry(p, w.core, req, wall, now, faults).1;
    EntryFacts(p, w.core, req, wall, now, faults);
    if k == |gs| {
      EntryHoldsWithoutFaults(p, w.core, req, wall, now, faults);
      s := Enters(rid, req, r.ctx, wall, user, true, None);
      assert (w.log + PassEvents(user, now, true)) + [] == w.log + PassEvents(user, now, true);
    } else {
      s := Enters(rid, req, NOBODY, wall, user, k >= 2, Some(r.result));
    }
  }

  lemma DenialFits(p: Policy, w: World, rid: nat, fetched: Fetched, wall: real, now: real, faults: set<Site>)
    returns (s: Shape)
    requires rid in w.requests && w.requests[rid].Fetching? && w.now <= now && !fetched.FetchCancelled?
    requires FirstStop(CallGuards(p, w.core, w.requests[rid].req, fetched, now, faults)) < 4
    ensures Fits(p, w, ToolsStep(p, w, rid, fetched, wall, now, faults), s)
  {
    var Fetching(req, ctx, began) := w.requests[rid];
    var k := FirstStop(CallGuards(p, w.core, req, fetched, now, faults));
    ToolsFacts(p, w.core, req, ctx, fetched, wall, now, faults);
    var denial := AfterTools(p, w.core, req, ctx, fetched, wall, now, faults).1.result;
    s := DeniesCall(rid, req.tool, k >= 3 && AtBreaker !in faults, denial);
  }

  lemma CallFits(p: Policy, w: World, rid: nat, fetched: Fetched, wall: real, now: real, faults: set<Site>)
    returns (s: Shape)
    requires rid in w.requests && w.requests[rid].Fetching? && w.now <= now && !fetched.FetchCancelled?
    requires FirstStop(CallGuards(p, w.core, w.requests[rid].req, fetched, now, faults)) == 4
    ensures Fits(p, w, ToolsStep(p, w, rid, fetched, wall, now, faults), s)
  {
    var Fetching(req, ctx, began) := w.requests[rid];
    ToolsFacts(p, w.core, req, ctx, fetched, wall, now, faults);
    CallHoldsWithoutFaults(p, w.core, req, fetched, wall, now, faults);
    s := Calls(rid, req.tool, wall, fetched.defs, UserOf(began.core, req, began.wall), began.now);
  }

  lemma ToolsFits(p: Policy, w: World, rid: nat, fetched: Fetched, wall: real, now: real, faults: set<Site>)
    returns (s: Shape)
    requires rid in w.requests && w.requests[rid].Fetching? && w.now <= now
    ensures Fits(p, w, ToolsStep(p, w, rid, fetched, wall, now, faults), s)
  {
    if fetched.FetchCancelled? {
      s := CancelsFetch(rid);
      assert (w.log + []) + [] == w.log;
    } else if FirstStop(CallGuards(p, w.core, w.requests[rid].req, fetched, now, faults)) == 4 {
      s := CallFits(p, w, rid, fetched, wall, now, faults);
    } else {
      CallInOrder(p, w.core, w.requests[rid].req, fetched, now, faults);
      s := DenialFits(p, w, rid, fetched, wall, now, faults);
    }
  }

  lemma ReplyFits(p: Policy, w: World, rid: nat, reply: Reply, wall: real, now: real, faults: set<Site>)
    returns (s: Shape)
    requires rid in w.requests && w.requests[rid].Calling? && w.now <= now
    ensures Fits(p, w, ReplyStep(p, w, rid, reply, wall, now, faults), s)
  {
    var Calling(req, ctx, began, fetched, tools) := w.requests[rid];
    var r := AfterReply(p, w.core, req, ctx, reply, wall, now, faults).1;
    var lost, ok := AtRecord in faults, reply.Replied? && !reply.response.isError;
    ReplyFacts(p, w.core, req, ctx, reply, wall, now, faults);
    if r.Escaped? {
      s := Reports(rid, req.tool, lost, ok, None, NoTrail);
      var log := w.log + [ReportEvent(rid, req.tool, lost, ok, now)];
      assert log + [] == log;
    } else {
      var trail := TrailOf(reply, r.result, began, fetched, tools);
      s := Reports(rid, req.tool, lost, ok, Some(r.result), trail);
    }
  }

  /** Every step has one of the shapes. */
  lemma StepFits(p: Policy, w: World, a: Action) returns (s: Shape)
    ensures Fits(p, w, Step(p, w, a), s)
  {
    s := Quiet;
    assert (w.log + []) + [] == w.log;
    if Enabled(w, a) {
      match a
      case Arrive(rid, req, wall, now, faults) => s := ArriveFits(p, w, rid, req, wall, now, faults);
      case GetTools(rid, fetched, wall, now, faults) => s := ToolsFits(p, w, rid, fetched, wall, now, faults);
      case GetReply(rid, reply, wall, now, faults) => s := ReplyFits(p, w, rid, reply, wall, now, faults);
      case Approve(approver, names, tools, wall, now, fault) =>
        s := ApproveFits(p, w, approver, names, tools, wall, now, fault);
      case Access(sessionId, manager, wall, now) => s := AccessFits(p, w, sessionId, manager, wall, now);
      case Login(userId, apiKey, token, wall, now) => s := LoginFits(p, w, userId, apiKey, token, wall, now);
      case Logout(sessionId, now) => s := LogoutFits(p, w, sessionId, now);
      case Accounts(_, _) =>
    }
  }

  lemma ApproveFits(p: Policy, w: World, approver: Auth.UserSession, names: Option<seq<Text>>,
      tools: seq<ToolDefinition>, wall: real, now: real, fault: Option<ApprovalFault>)
    returns (s: Shape)
    requires w.now <= now
    ensures Fits(p, w, ApproveStep(p, w, approver, names, tools, wall, now, fault), s)
  {
    if CanManage(p, approver.role) {
      s := BatchFits(p, w, approver, Wanted(names, tools), tools, wall, now, fault);
    } else {
      s := Quiet;
      assert (w.log + []) + [] == w.log;
    }
  }

  lemma BatchFits(p: Policy, w: World, approver: Auth.UserSession, wanted: seq<Text>, tools: seq<ToolDefinition>,
      wall: real, now: real, fault: Option<ApprovalFault>)
    returns (s: Shape)
    requires w.now <= now && CanManage(p, approver.role) && Distinct(wanted)
    ensures var pinned := wanted[..PinnedCount(fault, |wanted|)];
            Fits(p, w, World(ApprovalOf(p, w.core, approver, wanted, tools, wall, fault), now, w.requests,
                             w.log + PinEvents(p, w.core.tables.pins, tools, pinned, approver)), s)
  {
    var pinned, m := wanted[..PinnedCount(fault, |wanted|)], AttemptedCount(fault, |wanted|);
    var stored := CountedReaches(p, w.core, approver, wanted, tools, wall, fault);
    s := Approves(approver, pinned, tools, wall, m);
    assert pinned[..m] == wanted[..m];
    var log := w.log + PinEvents(p, w.core.tables.pins, tools, pinned, approver);
    assert log + [] == log;
  }

  lemma LoginFits(p: Policy, w: World, userId: Text, apiKey: Text, token: Text, wall: real, now: real)
    returns (s: Shape)
    requires w.now <= now && |token| == Auth.TOKEN_LEN
    ensures Fits(p, w, LoginStep(p, w, userId, apiKey, token, wall, now), s)
  {
    if Auth.LoginOf(w.core.tables, userId, apiKey, token, wall, p.sessionTtl).Ok? {
      s := SignsIn(token, userId, wall);
      var log := w.log + [SignedIn(token, userId, wall)];
      assert log + [] == log;
    } else {
      s := Quiet;
      assert (w.log + []) + [] == w.log;
    }
  }

  lemma LogoutFits(p: Policy, w: World, sessionId: Text, now: real) returns (s: Shape)
    requires w.now <= now
    ensures Fits(p, w, LogoutStep(w, sessionId, now), s)
  {
    s := SignsOut(sessionId);
    var log := w.log + [SignedOut(sessionId)];
    assert log + [] == log;
  }

  lemma AccessFits(p: Policy, w: World, sessionId: Text, manager: bool, wall: real, now: real) returns (s: Shape)
    requires w.now <= now
    ensures Fits(p, w, AccessStep(p, w, sessionId, manager, wall, now), s)
  {
    var session := Auth.Validate(w.core.tables, sessionId, wall);
    if session.Ok? {
      s := Counts(session.value.userId, !AccessOf(p, w.core, sessionId, manager, wall, now).1.Limited?);
      var log := w.log + PassEvents(session.value.userId, now, s.passed);
      assert log + [] == log;
    } else {
      s := Quiet;
      assert (w.log + []) + [] == w.log;
    }
  }
}
