/** The firewall core: the three atomic segments of one request, approval, and discovery.

    A request is suspended twice, while the tool list is fetched and while the tool is called. What
    runs between two suspensions is atomic. Each segment is specified by its table of guards in
    order: the first one that does not pass decides. A component call may raise at any of the
    sites listed below; `faults` says at which it does. */
module Gateway {
  import opened Basics
  import opened JsonModel
  import opened Storage
  import opened Integrity
  import Scanning
  import Limiting = RateLimiting
  import Breaking = CircuitBreaking
  import Auth = Authentication
  import Risk

  datatype RolePolicy = RolePolicy(allowedTools: set<Text>, maxRisk: RiskLevel, canManage: bool)

  datatype Policy = Policy(
    roles: map<Text, RolePolicy>, toolRisk: map<Text, RiskLevel>,
    quota: Limiting.Config, breaker: Breaking.Config, scan: Scanning.Limits, sessionTtl: real)

  datatype Request = Request(sessionId: Text, tool: Text, arguments: seq<Member>)

  datatype Response = Response(text: Text, isError: bool)

  datatype Result = Result(
    decision: Decision, stage: Stage, tool: Text, userId: Option<Text>, role: Option<Text>,
    risk: Option<RiskLevel>, retryAfter: Option<real>, response: Option<Response>)

  /** What is known about the caller so far. */
  datatype Ctx = Ctx(userId: Option<Text>, role: Option<Text>, sessionRef: Option<SessionRef>, risk: Option<RiskLevel>)

  const NOBODY := Ctx(None, None, None, None)

  /** Component calls that may raise. */
  datatype Site =
    | AtValidate | AtRateLimit | AtClassify | AtAuthorize | AtVerify | AtInputScan | AtBreaker
    | AtRecord | AtOutputScan | AtAudit

  /** The mutable state of the firewall. `checks` is every rate check ever made and `attempts` every
      audit record ever attempted for a request or an approval. */
  datatype Core = Core(
    tables: Tables, checks: seq<Limiting.Arrival>, breakers: map<Text, Breaking.Breaker>, attempts: seq<AuditRow>)

  /** Where a request stands after a segment. */
  datatype Progress = AwaitingTools(ctx: Ctx) | AwaitingReply(ctx: Ctx) | Returned(result: Result) | Escaped

  /** How the fetch of the tool list, and the tool call, may end. */
  datatype Fetched = Tools(defs: seq<ToolDefinition>) | FetchFailed | FetchCancelled {
    function ToolList(): seq<ToolDefinition> { if Tools? then defs else [] }
  }

  datatype Reply = Replied(response: Response) | CallFailed | CallCancelled

  // ----- guards ----------------------------------------------------------------------------------

  datatype Guard = Pass | Deny(stage: Stage, retryAfter: Option<real>) | Raise

  function At(site: Site, faults: set<Site>, g: Guard): Guard { if site in faults then Raise else g }

  function PassIf(b: bool, stage: Stage): Guard { if b then Pass else Deny(stage, None) }

  predicate StopsAt(gs: seq<Guard>, k: int) {
    0 <= k <= |gs| && (forall i :: 0 <= i < k ==> gs[i].Pass?) && (k < |gs| ==> !gs[k].Pass?)
  }

  /** The position of the first guard that does not pass. */
  function FirstStop(gs: seq<Guard>): (k: nat)
    ensures StopsAt(gs, k)
  {
    if gs == [] || !gs[0].Pass? then 0 else 1 + FirstStop(gs[1..])
  }

  lemma StopOfOne(a: Guard)
    ensures FirstStop([a]) == if !a.Pass? then 0 else 1
  {
    assert [a][1..] == [];
  }

  lemma StopOfCons(a: Guard, gs: seq<Guard>)
    ensures FirstStop([a] + gs) == if !a.Pass? then 0 else 1 + FirstStop(gs)
  {
    assert ([a] + gs)[1..] == gs;
  }

  lemma StopOfFour(a: Guard, b: Guard, c: Guard, d: Guard)
    ensures FirstStop([a, b, c, d])
            == if !a.Pass? then 0 else if !b.Pass? then 1 else if !c.Pass? then 2 else if !d.Pass? then 3 else 4
  {
    StopOfOne(d);
    StopOfCons(c, [d]);
    StopOfCons(b, [c, d]);
    StopOfCons(a, [b, c, d]);
    assert [c] + [d] == [c, d] && [b] + [c, d] == [b, c, d] && [a] + [b, c, d] == [a, b, c, d];
  }

  lemma StopOfFive(a: Guard, b: Guard, c: Guard, d: Guard, e: Guard)
    ensures FirstStop([a, b, c, d, e]) == if !a.Pass? then 0 else 1 + FirstStop([b, c, d, e])
  {
    StopOfCons(a, [b, c, d, e]);
    assert [a] + [b, c, d, e] == [a, b, c, d, e];
  }

  predicate ToolNameChar(c: CodePoint) {
    Risk.IsAlnum(c) || c in [95, 46, 45]
  }

  /** `[A-Za-z0-9_.\-]{1,128}` */
  predicate ValidToolName(t: Text) {
    1 <= |t| <= 128 && forall i :: 0 <= i < |t| ==> ToolNameChar(t[i])
  }

  /** One to a hundred and twenty-eight characters of the classes A-Z, a-z, 0-9 and of `_`, `.` and `-`. */
  lemma ValidToolNameIff(t: Text)
    ensures ValidToolName(t)
            <==> 1 <= |t| <= 128 && forall c :: c in t ==>
                   || 'A' as int <= c <= 'Z' as int || 'a' as int <= c <= 'z' as int || '0' as int <= c <= '9' as int
                   || c == '_' as int || c == '.' as int || c == '-' as int
  {
    assert forall i :: 0 <= i < |t| ==> t[i] in t;
  }

  predicate Permitted(p: Policy, role: Text, tool: Text, risk: RiskLevel) {
    role in p.roles && tool in p.roles[role].allowedTools && Risk.Rank(risk) <= Risk.Rank(p.roles[role].maxRisk)
  }

  predicate CanManage(p: Policy, role: Text) { role in p.roles && p.roles[role].canManage }

  function RiskOf(p: Policy, tool: Text): RiskLevel { Risk.Classify(p.toolRisk, tool) }

  function RateAnswer(p: Policy, core: Core, user: Text, now: real): Limiting.Answer {
    Limiting.Decide(p.quota, Limiting.Admitted(p.quota, core.checks, user), now)
  }

  function RateGuard(a: Limiting.Answer): Guard {
    if a.Allowed? then Pass else Deny(RateLimit, Some(a.retryAfter))
  }

  /** Guards before the tool list is fetched. */
  function EntryGuards(p: Policy, core: Core, req: Request, wall: real, now: real, faults: set<Site>): seq<Guard> {
    var session := Auth.Validate(core.tables, req.sessionId, wall);
    if session.Err? then [At(AtValidate, faults, Deny(Authentication, None))] else
      var s := session.value;
      [ At(AtValidate, faults, Pass),
        At(AtRateLimit, faults, RateGuard(RateAnswer(p, core, s.userId, now))),
        PassIf(ValidToolName(req.tool), Validation),
        At(AtClassify, faults, Pass),
        At(AtAuthorize, faults, PassIf(Permitted(p, s.role, req.tool, RiskOf(p, req.tool)), Authorization)) ]
  }

  /** The verdict of a table of guards. */
  function Decisive(gs: seq<Guard>): Guard {
    if FirstStop(gs) == |gs| then Pass else gs[FirstStop(gs)]
  }

  /** The entry guards read from top to bottom: how many pass, and what ends them. */
  function EntryVerdict(p: Policy, core: Core, req: Request, wall: real, now: real, faults: set<Site>): (nat, Guard) {
    var session := Auth.Validate(core.tables, req.sessionId, wall);
    if AtValidate in faults then (0, Raise)
    else if session.Err? then (0, Deny(Authentication, None))
    else
      var s := session.value;
      var rate := RateAnswer(p, core, s.userId, now);
      if AtRateLimit in faults then (1, Raise)
      else if rate.Refused? then (1, Deny(RateLimit, Some(rate.retryAfter)))
      else if !ValidToolName(req.tool) then (2, Deny(Validation, None))
      else if AtClassify in faults then (3, Raise)
      else if AtAuthorize in faults then (4, Raise)
      else if !Permitted(p, s.role, req.tool, RiskOf(p, req.tool)) then (4, Deny(Authorization, None))
      else (5, Pass)
  }

  lemma EntryInOrder(p: Policy, core: Core, req: Request, wall: real, now: real, faults: set<Site>)
    ensures var gs := EntryGuards(p, core, req, wall, now, faults);
            EntryVerdict(p, core, req, wall, now, faults) == (FirstStop(gs), Decisive(gs))
  {
    var gs := EntryGuards(p, core, req, wall, now, faults);
    if |gs| == 1 {
      StopOfOne(gs[0]);
    } else {
      StopOfFour(gs[1], gs[2], gs[3], gs[4]);
      StopOfFive(gs[0], gs[1], gs[2], gs[3], gs[4]);
    }
  }

  function Matches(tools: seq<ToolDefinition>, name: Text): seq<ToolDefinition> {
    if tools == [] then [] else
      Matches(tools[..|tools| - 1], name)
      + (if tools[|tools| - 1].name == name then [tools[|tools| - 1]] else [])
  }

  lemma {:induction false} MatchesAreNamed(tools: seq<ToolDefinition>, name: Text)
    ensures forall i :: 0 <= i < |Matches(tools, name)|
              ==> Matches(tools, name)[i].name == name && Matches(tools, name)[i] in tools
  {
    if tools != [] {
      MatchesAreNamed(tools[..|tools| - 1], name);
    }
  }

  /** The list has exactly one definition of this name, and this is it. */
  ghost predicate OnlyOne(tools: seq<ToolDefinition>, name: Text, d: ToolDefinition) {
    exists i :: 0 <= i < |tools| && tools[i] == d && d.name == name
                && forall j :: 0 <= j < |tools| && j != i ==> tools[j].name != name
  }

  ghost predicate NoneNamed(tools: seq<ToolDefinition>, name: Text) {
    forall i :: 0 <= i < |tools| ==> tools[i].name != name
  }

  lemma {:induction false} NoMatch(tools: seq<ToolDefinition>, name: Text)
    ensures Matches(tools, name) == [] <==> NoneNamed(tools, name)
  {
    if tools != [] {
      var n := |tools| - 1;
      NoMatch(tools[..n], name);
      assert NoneNamed(tools, name) <==> NoneNamed(tools[..n], name) && tools[n].name != name;
    }
  }

  lemma {:induction false} OnlyMatch(tools: seq<ToolDefinition>, name: Text, d: ToolDefinition)
    ensures Matches(tools, name) == [d] <==> OnlyOne(tools, name, d)
  {
    if tools != [] {
      var n := |tools| - 1;
      var most := tools[..n];
      OnlyMatch(most, name, d);
      NoMatch(most, name);
      if tools[n].name == name {
        if OnlyOne(tools, name, d) {
          assert tools[n] == d;
          assert NoneNamed(most, name);
        }
        if Matches(tools, name) == [d] {
          assert |Matches(most, name)| == 0 && (Matches(most, name) + [tools[n]])[0] == tools[n];
          assert tools[n] == d && forall j :: 0 <= j < |tools| && j != n ==> tools[j].name != name;
        }
      } else {
        OnlyOneBefore(tools, name, d);
      }
    }
  }

  lemma OnlyOneBefore(tools: seq<ToolDefinition>, name: Text, d: ToolDefinition)
    requires tools != [] && tools[|tools| - 1].name != name
    ensures OnlyOne(tools, name, d) <==> OnlyOne(tools[..|tools| - 1], name, d)
  {
    var most := tools[..|tools| - 1];
    if i :| 0 <= i < |most| && most[i] == d && d.name == name
            && forall j :: 0 <= j < |most| && j != i ==> most[j].name != name {
      assert tools[i] == d && forall j :: 0 <= j < |tools| && j != i ==> tools[j].name != name;
    }
    if i :| 0 <= i < |tools| && tools[i] == d && d.name == name
            && forall j :: 0 <= j < |tools| && j != i ==> tools[j].name != name {
      assert most[i] == d && forall j :: 0 <= j < |most| && j != i ==> most[j].name != name;
    }
  }

  predicate InputClean(p: Policy, req: Request) {
    Scanning.ScanFindings(p.scan, Object(req.arguments), Scanning.Input, Lit("arguments")) == []
  }

  predicate OutputClean(p: Policy, text: Text) {
    Scanning.ScanFindings(p.scan, Str(text), Scanning.Output, Lit("response")) == []
  }

  function BreakerOf(core: Core, tool: Text): Breaking.Breaker {
    if tool in core.breakers then core.breakers[tool] else Breaking.FRESH
  }

  function BreakerGuard(p: Policy, core: Core, tool: Text, now: real): Guard {
    var (after, granted) := Breaking.Allow(p.breaker, BreakerOf(core, tool), now);
    if granted then Pass else Deny(BreakerStage, Some(Breaking.RetryAfter(p.breaker, after, now)))
  }

  /** Guards between the fetch and the call. */
  function CallGuards(p: Policy, core: Core, req: Request, fetched: Fetched, now: real, faults: set<Site>): seq<Guard>
    requires !fetched.FetchCancelled?
  {
    if fetched.FetchFailed? then [Deny(Upstream, None)] else
      var ms := Matches(fetched.defs, req.tool);
      if |ms| != 1 then [Deny(IntegrityStage, None)] else
        [ Pass,
          At(AtVerify, faults, PassIf(Verify(core.tables.pins, ms[0]).OkIntegrity?, IntegrityStage)),
          At(AtInputScan, faults, PassIf(InputClean(p, req), InputScan)),
          At(AtBreaker, faults, BreakerGuard(p, core, req.tool, now)) ]
  }

  /** Guards after the call. */
  function ReplyGuards(p: Policy, reply: Reply, faults: set<Site>): seq<Guard> {
    match reply
    case Replied(response) =>
      [At(AtRecord, faults, Pass), At(AtOutputScan, faults, PassIf(OutputClean(p, response.text), OutputScan))]
    case CallFailed => [At(AtRecord, faults, Deny(Upstream, None))]
    case CallCancelled => [At(AtRecord, faults, Pass)]
  }

  /** The guards between fetch and call that come before the breaker. */
  function InspectVerdict(p: Policy, pins: map<Text, Pin>, req: Request, fetched: Fetched, faults: set<Site>)
    : (nat, Guard)
    requires !fetched.FetchCancelled?
  {
    if fetched.FetchFailed? then (0, Deny(Upstream, None))
    else
      var ms := Matches(fetched.defs, req.tool);
      if |ms| != 1 then (0, Deny(IntegrityStage, None))
      else if AtVerify in faults then (1, Raise)
      else if !Verify(pins, ms[0]).OkIntegrity? then (1, Deny(IntegrityStage, None))
      else if AtInputScan in faults then (2, Raise)
      else if !InputClean(p, req) then (2, Deny(InputScan, None))
      else (3, Pass)
  }

  function CallVerdict(p: Policy, core: Core, req: Request, fetched: Fetched, now: real, faults: set<Site>)
    : (nat, Guard)
    requires !fetched.FetchCancelled?
  {
    var (k, g) := InspectVerdict(p, core.tables.pins, req, fetched, faults);
    if !g.Pass? then (k, g)
    else if AtBreaker in faults then (3, Raise)
    else
      var b := BreakerGuard(p, core, req.tool, now);
      (if b.Pass? then 4 else 3, b)
  }

  lemma {:induction false} CallInOrder(p: Policy, core: Core, req: Request, fetched: Fetched, now: real,
      faults: set<Site>)
    requires !fetched.FetchCancelled?
    ensures var gs := CallGuards(p, core, req, fetched, now, faults);
            CallVerdict(p, core, req, fetched, now, faults) == (FirstStop(gs), Decisive(gs))
  {
    var gs := CallGuards(p, core, req, fetched, now, faults);
    if |gs| == 1 {
      StopOfOne(gs[0]);
    } else {
      StopOfFour(gs[0], gs[1], gs[2], gs[3]);
    }
  }

  function ReplyVerdict(p: Policy, reply: Reply, faults: set<Site>): Guard {
    if AtRecord in faults then Raise
    else if reply.CallFailed? then Deny(Upstream, None)
    else if reply.CallCancelled? then Pass
    else if AtOutputScan in faults then Raise
    else PassIf(OutputClean(p, reply.response.text), OutputScan)
  }

  lemma ReplyInOrder(p: Policy, reply: Reply, faults: set<Site>)
    ensures ReplyVerdict(p, reply, faults) == Decisive(ReplyGuards(p, reply, faults))
  {
    var gs := ReplyGuards(p, reply, faults);
    StopOfOne(gs[|gs| - 1]);
    if |gs| == 2 {
      StopOfCons(gs[0], [gs[1]]);
      assert [gs[0]] + [gs[1]] == gs;
    }
  }

  // ----- the segments as functions -----------------------------------------------------------------

  function Denial(req: Request, ctx: Ctx, g: Guard): Result
    requires !g.Pass?
  {
    match g
    case Deny(stage, retry) => Result(DENY, stage, req.tool, ctx.userId, ctx.role, ctx.risk, retry, None)
    case Raise => Result(DENY, Internal, req.tool, ctx.userId, ctx.role, ctx.risk, None, None)
  }

  function RowOf(req: Request, ctx: Ctx, result: Result, wall: real): AuditRow {
    AuditRow(wall, ctx.userId, ctx.sessionRef, ctx.role, req.tool, result.risk, result.decision, result.stage)
  }

  /** Every result is audited once; a failing audit changes nothing but the table. */
  function Conclude(core: Core, req: Request, ctx: Ctx, result: Result, wall: real, faults: set<Site>)
    : (Core, Progress)
  {
    var row := RowOf(req, ctx, result, wall);
    (core.(attempts := core.attempts + [row],
           tables := if AtAudit in faults then core.tables else core.tables.(audit := core.tables.audit + [row])),
     Returned(result))
  }

  function KnownCaller(s: Auth.UserSession, risk: Option<RiskLevel>): Ctx {
    Ctx(Some(s.userId), Some(s.role), Some(s.sessionRef), risk)
  }

  /** What is known about the caller once the first `k` entry guards have passed. */
  function EntryCtx(p: Policy, core: Core, req: Request, wall: real, k: nat): Ctx {
    var session := Auth.Validate(core.tables, req.sessionId, wall);
    if k == 0 || session.Err? then NOBODY
    else KnownCaller(session.value, if k >= 4 then Some(RiskOf(p, req.tool)) else None)
  }

  /** A check is counted for every authenticated request, allowed or not. */
  function Counted(core: Core, req: Request, wall: real, now: real, k: nat, faults: set<Site>): Core {
    var session := Auth.Validate(core.tables, req.sessionId, wall);
    if k == 0 || session.Err? || AtRateLimit in faults then core
    else core.(checks := core.checks + [Limiting.Arrival(session.value.userId, now)])
  }

  /** The first segment: everything before the tool list is fetched. */
  function Entry(p: Policy, core: Core, req: Request, wall: real, now: real, faults: set<Site>): (Core, Progress) {
    var gs := EntryGuards(p, core, req, wall, now, faults);
    var k := FirstStop(gs);
    var counted, ctx := Counted(core, req, wall, now, k, faults), EntryCtx(p, core, req, wall, k);
    if k == |gs| then (counted, AwaitingTools(ctx))
    else Conclude(counted, req, ctx, Denial(req, ctx, gs[k]), wall, faults)
  }

  /** The second segment: from the tool list to the upstream call. */
  function AfterTools(p: Policy, core: Core, req: Request, ctx: Ctx, fetched: Fetched, wall: real, now: real,
      faults: set<Site>)
    : (Core, Progress)
  {
    if fetched.FetchCancelled? then (core, Escaped) else
      var gs := CallGuards(p, core, req, fetched, now, faults);
      var k := FirstStop(gs);
      var asked := if k < 3 || AtBreaker in faults then core else Ask(p, core, req.tool, now);
      if k == |gs| then (asked, AwaitingReply(ctx))
      else Conclude(asked, req, ctx, Denial(req, ctx, gs[k]), wall, faults)
  }

  function Ask(p: Policy, core: Core, tool: Text, now: real): Core {
    core.(breakers := core.breakers[tool := Breaking.Allow(p.breaker, BreakerOf(core, tool), now).0])
  }

  function Tell(p: Policy, core: Core, tool: Text, reply: Reply, now: real): Core {
    var b := BreakerOf(core, tool);
    var told := if reply.Replied? && !reply.response.isError then Breaking.Succeed(b)
                else Breaking.Fail(p.breaker, b, now);
    core.(breakers := core.breakers[tool := told])
  }

  function AllowResult(req: Request, ctx: Ctx, response: Response): Result {
    Result(ALLOW, AllowedStage, req.tool, ctx.userId, ctx.role, ctx.risk, None, Some(response))
  }

  /** The third segment: after the upstream call. Every ending is reported to the breaker. */
  function AfterReply(p: Policy, core: Core, req: Request, ctx: Ctx, reply: Reply, wall: real, now: real,
      faults: set<Site>)
    : (Core, Progress)
  {
    var gs := ReplyGuards(p, reply, faults);
    var k := FirstStop(gs);
    var told := if AtRecord in faults then core else Tell(p, core, req.tool, reply, now);
    if k < |gs| then Conclude(told, req, ctx, Denial(req, ctx, gs[k]), wall, faults)
    else if reply.Replied? then Conclude(told, req, ctx, AllowResult(req, ctx, reply.response), wall, faults)
    else (told, Escaped)
  }

  // ----- approval as functions -----------------------------------------------------------------------

  datatype Status = Approved | Updated | Unchanged | Rejected | NotFound

  datatype Outcome = Outcome(tool: Text, status: Status, fingerprint: Option<Digest>)

  predicate Accepted(s: Status) { s.Approved? || s.Updated? || s.Unchanged? }

  /** What approval of one name comes to, given the pins before it. */
  function OutcomeOf(p: Policy, pins: map<Text, Pin>, tools: seq<ToolDefinition>, name: Text): Outcome {
    var ms := Matches(tools, name);
    if ms == [] then Outcome(name, NotFound, None)
    else if |ms| > 1 || !ScanClean(p.scan, ms[0]) then Outcome(name, Rejected, None)
    else
      var fp := Fingerprint(ms[0]);
      Outcome(name,
              if name !in pins then Approved else if pins[name].fingerprint == fp then Unchanged else Updated,
              Some(fp))
  }

  /** The definition approval would pin under a name: the only one of that name, which passes the scan of
      descriptions. */
  ghost predicate Pinnable(p: Policy, tools: seq<ToolDefinition>, name: Text, d: ToolDefinition) {
    && OnlyOne(tools, name, d)
    && Scanning.Passes(p.scan, Scanning.Description, DefinitionTexts(d), DefinitionHeight(d))
  }

  /** What approval of one name comes to, case by case. */
  lemma OutcomeIs(p: Policy, pins: map<Text, Pin>, tools: seq<ToolDefinition>, name: Text)
    ensures
      var o := OutcomeOf(p, pins, tools, name);
      && o.tool == name
      && (o.status == NotFound <==> NoneNamed(tools, name))
      && (Accepted(o.status) <==> exists d :: Pinnable(p, tools, name, d))
      && (forall d :: Pinnable(p, tools, name, d) ==>
            && Matches(tools, name) == [d] && o.fingerprint == Some(Fingerprint(d))
            && (o.status == Approved <==> name !in pins)
            && (o.status == Unchanged <==> name in pins && pins[name].fingerprint == Fingerprint(d)))
      && (!Accepted(o.status) ==> o.fingerprint == None)
  {
    NoMatch(tools, name);
    forall d ensures Matches(tools, name) == [d] <==> OnlyOne(tools, name, d) {
      OnlyMatch(tools, name, d);
    }
    if |Matches(tools, name)| == 1 {
      var d := Matches(tools, name)[0];
      assert Matches(tools, name) == [d];
      ScanCleanIff(p.scan, d);
      assert OnlyOne(tools, name, d);
      assert Pinnable(p, tools, name, d) <==> ScanClean(p.scan, d);
    }
  }

  /** The pins after one name. */
  function PinsAfterOne(p: Policy, pins: map<Text, Pin>, tools: seq<ToolDefinition>, name: Text, approver: Text,
      wall: real)
    : map<Text, Pin>
  {
    var outcome := OutcomeOf(p, pins, tools, name);
    if Accepted(outcome.status) then pins[name := Pin(outcome.fingerprint.value, wall, approver)] else pins
  }

  /** The pins after a batch of names, none of them named twice. */
  function PinsAfter(p: Policy, pins: map<Text, Pin>, tools: seq<ToolDefinition>, names: seq<Text>, approver: Text,
      wall: real)
    : map<Text, Pin>
  {
    if names == [] then pins
    else
      var most, name := names[..|names| - 1], names[|names| - 1];
      PinsAfterOne(p, PinsAfter(p, pins, tools, most, approver, wall), tools, name, approver, wall)
  }

  lemma PinsAfterNext(p: Policy, pins: map<Text, Pin>, tools: seq<ToolDefinition>, names: seq<Text>, name: Text,
      approver: Text, wall: real)
    ensures PinsAfter(p, pins, tools, names + [name], approver, wall)
            == PinsAfterOne(p, PinsAfter(p, pins, tools, names, approver, wall), tools, name, approver, wall)
    ensures PinsAfter(p, pins, tools, [name], approver, wall) == PinsAfterOne(p, pins, tools, name, approver, wall)
  {
    assert (names + [name])[..|names|] == names && [name][..0] == [];
  }

  /** Where a name occurs first. */
  function FirstAt(names: seq<Text>, name: Text): (i: nat)
    requires name in names
    ensures i < |names| && names[i] == name && name !in names[..i]
  {
    var most := names[..|names| - 1];
    if name in most then FirstAt(most, name) else |names| - 1
  }

  /** In the order in which they occur first. */
  ghost predicate InOrder(r: seq<Text>, names: seq<Text>) {
    && (forall i :: 0 <= i < |r| ==> r[i] in names)
    && (forall i, j :: 0 <= i < j < |r| ==> FirstAt(names, r[i]) < FirstAt(names, r[j]))
  }

  /** Every name once, in the order of first occurrence. */
  function Dedup(names: seq<Text>): (r: seq<Text>)
    ensures Distinct(r) && InOrder(r, names)
    ensures forall n :: n in r <==> n in names
  {
    if names == [] then [] else
      var r, last := Dedup(names[..|names| - 1]), names[|names| - 1];
      if last in r then r else r + [last]
  }

  function NamesOf(tools: seq<ToolDefinition>): (r: seq<Text>)
    ensures |r| == |tools| && forall i :: 0 <= i < |r| ==> r[i] == tools[i].name
  {
    seq(|tools|, i requires 0 <= i < |tools| => tools[i].name)
  }

  function Wanted(names: Option<seq<Text>>, tools: seq<ToolDefinition>): seq<Text> {
    Dedup(if names.Some? then names.value else NamesOf(tools))
  }

  function ApprovalRow(p: Policy, approver: Auth.UserSession, o: Outcome, wall: real): AuditRow {
    AuditRow(wall, Some(approver.userId), Some(approver.sessionRef), Some(approver.role), o.tool,
             if ValidToolName(o.tool) then Some(RiskOf(p, o.tool)) else None,
             if Accepted(o.status) then ALLOW else DENY, Approval)
  }

  /** One outcome a name, judged by the pins before the batch. */
  function Outcomes(p: Policy, pins: map<Text, Pin>, tools: seq<ToolDefinition>, names: seq<Text>): (r: seq<Outcome>)
    ensures |r| == |names| && forall i :: 0 <= i < |r| ==> r[i] == OutcomeOf(p, pins, tools, names[i])
  {
    seq(|names|, i requires 0 <= i < |names| => OutcomeOf(p, pins, tools, names[i]))
  }

  function ApprovalRows(p: Policy, approver: Auth.UserSession, os: seq<Outcome>, wall: real): (r: seq<AuditRow>)
    ensures |r| == |os| && forall i :: 0 <= i < |r| ==> r[i] == ApprovalRow(p, approver, os[i], wall)
  {
    seq(|os|, i requires 0 <= i < |os| => ApprovalRow(p, approver, os[i], wall))
  }

  /** A whole batch, once the approver may manage and the tool list is there. */
  function ApproveBatch(p: Policy, core: Core, approver: Auth.UserSession, names: seq<Text>,
      tools: seq<ToolDefinition>, wall: real): Core {
    var rows := ApprovalRows(p, approver, Outcomes(p, core.tables.pins, tools, names), wall);
    core.(attempts := core.attempts + rows,
          tables := core.tables.(audit := core.tables.audit + rows,
                                 pins := PinsAfter(p, core.tables.pins, tools, names, approver.userId, wall)))
  }

  /** Where a batch may raise at one name: before it is pinned, after that but before its audit record
      is attempted, or in the attempt. Nothing catches it. */
  datatype ApprovalSite = BeforePin | AfterPin | AtRecording

  datatype ApprovalFault = ApprovalFault(at: nat, site: ApprovalSite)

  datatype BatchResult = NotAllowed | Raised | Done(outcomes: seq<Outcome>)

  predicate Strikes(fault: Option<ApprovalFault>, n: nat) { fault.Some? && fault.value.at < n }

  /** What a raise at this name leaves behind. */
  function StoppedAt(p: Policy, before: Core, approver: Auth.UserSession, name: Text, tools: seq<ToolDefinition>,
      wall: real, site: ApprovalSite): Core
  {
    var pins := before.tables.pins;
    var pinned := before.(tables := before.tables.(pins := PinsAfterOne(p, pins, tools, name, approver.userId, wall)));
    match site
    case BeforePin => before
    case AfterPin => pinned
    case AtRecording =>
      pinned.(attempts := before.attempts + [ApprovalRow(p, approver, OutcomeOf(p, pins, tools, name), wall)])
  }

  /** A batch that may raise at one of its names: those before it are done, those after it are not. */
  function ApprovalOf(p: Policy, core: Core, approver: Auth.UserSession, names: seq<Text>, tools: seq<ToolDefinition>,
      wall: real, fault: Option<ApprovalFault>): Core
  {
    if !Strikes(fault, |names|) then ApproveBatch(p, core, approver, names, tools, wall) else
      var k := fault.value.at;
      var before := ApproveBatch(p, core, approver, names[..k], tools, wall);
      StoppedAt(p, before, approver, names[k], tools, wall, fault.value.site)
  }

  /** What the approver gets to see of a batch. */
  function ResultOf(p: Policy, pins: map<Text, Pin>, tools: seq<ToolDefinition>, names: seq<Text>,
      fault: Option<ApprovalFault>): BatchResult
  {
    if Strikes(fault, |names|) then Raised else Done(Outcomes(p, pins, tools, names))
  }

  /** How many of `n` names are pinned, and how many have an audit record attempted. */
  function PinnedCount(fault: Option<ApprovalFault>, n: nat): (m: nat)
    ensures m <= n
  {
    if !Strikes(fault, n) then n else fault.value.at + (if fault.value.site.BeforePin? then 0 else 1)
  }

  function AttemptedCount(fault: Option<ApprovalFault>, n: nat): (m: nat)
    ensures m <= PinnedCount(fault, n)
  {
    if !Strikes(fault, n) then n else fault.value.at + (if fault.value.site.AtRecording? then 1 else 0)
  }

  lemma {:induction false} OtherPinsStay(p: Policy, pins: map<Text, Pin>, tools: seq<ToolDefinition>, names: seq<Text>,
      approver: Text, wall: real, name: Text)
    requires name !in names
    ensures var after := PinsAfter(p, pins, tools, names, approver, wall);
            && (name in after <==> name in pins)
            && (name in pins ==> after[name] == pins[name])
            && OutcomeOf(p, after, tools, name) == OutcomeOf(p, pins, tools, name)
  {
    if names != [] {
      assert names[|names| - 1] in names;
      OtherPinsStay(p, pins, tools, names[..|names| - 1], approver, wall, name);
    }
  }

  /** A batch with one more name is the batch followed by that name. */
  lemma BatchNext(p: Policy, core: Core, approver: Auth.UserSession, names: seq<Text>, name: Text,
      tools: seq<ToolDefinition>, wall: real)
    requires name !in names
    ensures var before := ApproveBatch(p, core, approver, names, tools, wall);
            && ApproveBatch(p, before, approver, [name], tools, wall)
               == ApproveBatch(p, core, approver, names + [name], tools, wall)
            && Outcomes(p, core.tables.pins, tools, names + [name])
               == Outcomes(p, core.tables.pins, tools, names) + [OutcomeOf(p, before.tables.pins, tools, name)]
  {
    var pins := core.tables.pins;
    var outcome := OutcomeOf(p, pins, tools, name);
    OtherPinsStay(p, pins, tools, names, approver.userId, wall, name);
    PinsAfterNext(p, pins, tools, names, name, approver.userId, wall);
    assert Outcomes(p, pins, tools, names + [name]) == Outcomes(p, pins, tools, names) + [outcome];
    RowsOfNext(p, pins, approver, names, name, tools, wall, core.attempts);
    RowsOfNext(p, pins, approver, names, name, tools, wall, core.tables.audit);
    BatchOfOne(p, ApproveBatch(p, core, approver, names, tools, wall), approver, name, tools, wall);
  }

  lemma BatchOfOne(p: Policy, core: Core, approver: Auth.UserSession, name: Text, tools: seq<ToolDefinition>,
      wall: real)
    ensures
      var pins, row := core.tables.pins, ApprovalRow(p, approver, OutcomeOf(p, core.tables.pins, tools, name), wall);
      ApproveBatch(p, core, approver, [name], tools, wall)
      == core.(attempts := core.attempts + [row],
               tables := core.tables.(audit := core.tables.audit + [row],
                                      pins := PinsAfterOne(p, pins, tools, name, approver.userId, wall)))
  {
    var outcome := OutcomeOf(p, core.tables.pins, tools, name);
    assert Outcomes(p, core.tables.pins, tools, [name]) == [outcome];
    OneRow(p, approver, outcome, wall);
    PinsAfterNext(p, core.tables.pins, tools, [], name, approver.userId, wall);
  }

  lemma RowsNext(p: Policy, approver: Auth.UserSession, os: seq<Outcome>, o: Outcome, wall: real, rows: seq<AuditRow>)
    ensures (rows + ApprovalRows(p, approver, os, wall)) + ApprovalRows(p, approver, [o], wall)
            == rows + ApprovalRows(p, approver, os + [o], wall)
  {
    assert ApprovalRows(p, approver, os + [o], wall)
           == ApprovalRows(p, approver, os, wall) + ApprovalRows(p, approver, [o], wall);
    ConcatAssoc(rows, ApprovalRows(p, approver, os, wall), ApprovalRows(p, approver, [o], wall));
  }

  /** The core of a batch that pinned its names up to here, attempted audit records of these and stored those. */
  ghost predicate Reaches(p: Policy, core: Core, after: Core, approver: Auth.UserSession, pinned: seq<Text>,
      attempted: seq<Text>, stored: seq<Text>, tools: seq<ToolDefinition>, wall: real)
  {
    && after.tables.pins == PinsAfter(p, core.tables.pins, tools, pinned, approver.userId, wall)
    && after.attempts
       == core.attempts + ApprovalRows(p, approver, Outcomes(p, core.tables.pins, tools, attempted), wall)
    && after.tables.audit
       == core.tables.audit + ApprovalRows(p, approver, Outcomes(p, core.tables.pins, tools, stored), wall)
    && after.checks == core.checks && after.breakers == core.breakers
    && after.tables.users == core.tables.users && after.tables.sessions == core.tables.sessions
  }

  lemma RowsOfNext(p: Policy, pins: map<Text, Pin>, approver: Auth.UserSession, done: seq<Text>, name: Text,
      tools: seq<ToolDefinition>, wall: real, rows: seq<AuditRow>)
    ensures rows + ApprovalRows(p, approver, Outcomes(p, pins, tools, done + [name]), wall)
            == (rows + ApprovalRows(p, approver, Outcomes(p, pins, tools, done), wall))
               + [ApprovalRow(p, approver, OutcomeOf(p, pins, tools, name), wall)]
  {
    var outcome := OutcomeOf(p, pins, tools, name);
    assert Outcomes(p, pins, tools, done + [name]) == Outcomes(p, pins, tools, done) + [outcome];
    OneRow(p, approver, outcome, wall);
    RowsNext(p, approver, Outcomes(p, pins, tools, done), outcome, wall, rows);
  }

  lemma StopReaches(p: Policy, core: Core, approver: Auth.UserSession, done: seq<Text>, name: Text,
      tools: seq<ToolDefinition>, wall: real, site: ApprovalSite)
    requires name !in done
    ensures var before := ApproveBatch(p, core, approver, done, tools, wall);
            Reaches(p, core, StoppedAt(p, before, approver, name, tools, wall, site), approver,
                    if site.BeforePin? then done else done + [name],
                    if site.AtRecording? then done + [name] else done, done, tools, wall)
  {
    OtherPinsStay(p, core.tables.pins, tools, done, approver.userId, wall, name);
    PinsAfterNext(p, core.tables.pins, tools, done, name, approver.userId, wall);
    RowsOfNext(p, core.tables.pins, approver, done, name, tools, wall, core.attempts);
  }

  lemma BatchReaches(p: Policy, core: Core, approver: Auth.UserSession, names: seq<Text>, tools: seq<ToolDefinition>,
      wall: real)
    ensures Reaches(p, core, ApproveBatch(p, core, approver, names, tools, wall), approver, names, names, names,
                    tools, wall)
  {
  }

  lemma OneRow(p: Policy, approver: Auth.UserSession, o: Outcome, wall: real)
    ensures ApprovalRows(p, approver, [o], wall) == [ApprovalRow(p, approver, o, wall)]
  {
  }

  /** A batch that raises at a name has done all those before it: the name itself is pinned unless the raise came
      before that, its record is attempted only if that is what raised, and it is never stored. */
  lemma ApprovalReaches(p: Policy, core: Core, approver: Auth.UserSession, names: seq<Text>, tools: seq<ToolDefinition>,
      wall: real, fault: Option<ApprovalFault>)
    requires Distinct(names)
    ensures var after := ApprovalOf(p, core, approver, names, tools, wall, fault);
            if fault.Some? && fault.value.at < |names| then
              var k, site := fault.value.at, fault.value.site;
              Reaches(p, core, after, approver, names[..if site.BeforePin? then k else k + 1],
                      names[..if site.AtRecording? then k + 1 else k], names[..k], tools, wall)
            else Reaches(p, core, after, approver, names, names, names, tools, wall)
  {
    if Strikes(fault, |names|) {
      var k, site := fault.value.at, fault.value.site;
      var done, name := names[..k], names[k];
      assert names[..k + 1] == done + [name];
      assert name !in done;
      StopReaches(p, core, approver, done, name, tools, wall, site);
    } else {
      BatchReaches(p, core, approver, names, tools, wall);
    }
  }

  lemma CountedReaches(p: Policy, core: Core, approver: Auth.UserSession, names: seq<Text>, tools: seq<ToolDefinition>,
      wall: real, fault: Option<ApprovalFault>)
    returns (stored: seq<Text>)
    requires Distinct(names)
    ensures Reaches(p, core, ApprovalOf(p, core, approver, names, tools, wall, fault), approver,
                    names[..PinnedCount(fault, |names|)], names[..AttemptedCount(fault, |names|)], stored, tools, wall)
  {
    ApprovalReaches(p, core, approver, names, tools, wall, fault);
    stored := if Strikes(fault, |names|) then names[..fault.value.at] else names;
    assert names[..|names|] == names;
  }

  // ----- access ----------------------------------------------------------------------------------------

  datatype Access =
    | Granted(session: Auth.UserSession) | NoSession(error: Auth.AuthError) | Limited(retryAfter: real) | Forbidden

  /** Validates a session and counts the call; `manager` asks for a managing role besides. */
  function AccessOf(p: Policy, core: Core, sessionId: Text, manager: bool, wall: real, now: real): (Core, Access) {
    var session := Auth.Validate(core.tables, sessionId, wall);
    if session.Err? then (core, NoSession(session.error)) else
      var s := session.value;
      var rate := RateAnswer(p, core, s.userId, now);
      (core.(checks := core.checks + [Limiting.Arrival(s.userId, now)]),
       if rate.Refused? then Limited(rate.retryAfter)
       else if manager && !CanManage(p, s.role) then Forbidden
       else Granted(s))
  }

  /** The role's policy allows management. */
  ghost predicate MayManage(p: Policy, role: Text) { role in p.roles && p.roles[role].canManage }

  /** The role is known, its list names the tool, and the risk is within its limit. */
  ghost predicate MayUse(p: Policy, role: Text, tool: Text) {
    && role in p.roles && tool in p.roles[role].allowedTools
    && Risk.Rank(Risk.Classify(p.toolRisk, tool)) <= Risk.Rank(p.roles[role].maxRisk)
  }

  /** Access is granted exactly for a valid session, within the quota, and, where a manager is asked for, a role
      that may manage; it is forbidden exactly if only the last fails. Every valid session is counted. */
  lemma AccessIs(p: Policy, core: Core, sessionId: Text, manager: bool, wall: real, now: real)
    ensures
      var (after, r) := AccessOf(p, core, sessionId, manager, wall, now);
      var session := Auth.Validate(core.tables, sessionId, wall);
      if session.Err? then r == NoSession(session.error) && after == core
      else
        var s := session.value;
        var rate := Limiting.Decide(p.quota, Limiting.Admitted(p.quota, core.checks, s.userId), now);
        && after == core.(checks := core.checks + [Limiting.Arrival(s.userId, now)])
        && (r == Granted(s) <==> rate.Allowed? && (manager ==> s.role in p.roles && p.roles[s.role].canManage))
        && (r == Forbidden <==> rate.Allowed? && manager && !(s.role in p.roles && p.roles[s.role].canManage))
        && (rate.Refused? ==> r == Limited(rate.retryAfter))
  {
  }

  // ----- discovery as functions ------------------------------------------------------------------------

  datatype ToolInfo = ToolInfo(
    name: Text, description: Text, inputSchema: seq<Member>, risk: RiskLevel, integrity: IntegrityStatus)

  predicate Visible(p: Policy, pins: map<Text, Pin>, role: Text, d: ToolDefinition) {
    CanManage(p, role) || (Verify(pins, d).OkIntegrity? && Permitted(p, role, d.name, RiskOf(p, d.name)))
  }

  function InfoOf(p: Policy, pins: map<Text, Pin>, d: ToolDefinition): ToolInfo {
    ToolInfo(d.name, d.description, d.inputSchema, RiskOf(p, d.name), Verify(pins, d))
  }

  function Listing(p: Policy, pins: map<Text, Pin>, role: Text, tools: seq<ToolDefinition>): seq<ToolInfo> {
    if tools == [] then [] else
      var d := tools[|tools| - 1];
      Listing(p, pins, role, tools[..|tools| - 1]) + (if Visible(p, pins, role, d) then [InfoOf(p, pins, d)] else [])
  }
}
