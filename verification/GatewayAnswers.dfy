/** What the three segments of a request answer, record and change, condition by condition. */
module GatewayAnswers {
  import opened Basics
  import opened JsonModel
  import opened Storage
  import opened Integrity
  import opened Gateway
  import Scanning
  import Limiting = RateLimiting
  import Breaking = CircuitBreaking
  import Auth = Authentication
  import Risk

  // ----- the answers -------------------------------------------------------------------------------

  /** Before the fetch: valid session, quota, name, risk, permission, in this order. A step that raises ends it
      as an internal error. A denial says what is known of the caller by then, and holds no response. */
  lemma EntryAnswers(p: Policy, core: Core, req: Request, wall: real, now: real, faults: set<Site>)
    ensures
      var r := Entry(p, core, req, wall, now, faults).1;
      var session := Auth.Validate(core.tables, req.sessionId, wall);
      if AtValidate in faults then r == Returned(Result(DENY, Internal, req.tool, None, None, None, None, None))
      else if session.Err? then r == Returned(Result(DENY, Authentication, req.tool, None, None, None, None, None))
      else
        var user, role := Some(session.value.userId), Some(session.value.role);
        var rate := Limiting.Decide(p.quota, Limiting.Admitted(p.quota, core.checks, session.value.userId), now);
        var risk := Risk.Classify(p.toolRisk, req.tool);
        if AtRateLimit in faults then r == Returned(Result(DENY, Internal, req.tool, user, role, None, None, None))
        else if rate.Refused?
        then r == Returned(Result(DENY, RateLimit, req.tool, user, role, None, Some(rate.retryAfter), None))
        else if !ValidToolName(req.tool)
        then r == Returned(Result(DENY, Validation, req.tool, user, role, None, None, None))
        else if AtClassify in faults then r == Returned(Result(DENY, Internal, req.tool, user, role, None, None, None))
        else if AtAuthorize in faults
        then r == Returned(Result(DENY, Internal, req.tool, user, role, Some(risk), None, None))
        else if && session.value.role in p.roles && req.tool in p.roles[session.value.role].allowedTools
                && Risk.Rank(risk) <= Risk.Rank(p.roles[session.value.role].maxRisk)
        then r == AwaitingTools(Ctx(user, role, Some(Prefix(Sha256(req.sessionId))), Some(risk)))
        else r == Returned(Result(DENY, Authorization, req.tool, user, role, Some(risk), None, None))
  {
    EntryInOrder(p, core, req, wall, now, faults);
  }

  /** Between the fetch and the call: one definition of the name, which has the approved fingerprint, arguments
      that pass the input scan, and the breaker, in this order. */
  lemma CallAnswers(p: Policy, core: Core, req: Request, ctx: Ctx, fetched: Fetched, wall: real, now: real,
      faults: set<Site>)
    ensures
      var r := AfterTools(p, core, req, ctx, fetched, wall, now, faults).1;
      var b := if req.tool in core.breakers then core.breakers[req.tool] else Breaking.FRESH;
      var (asked, granted) := Breaking.Allow(p.breaker, b, now);
      if fetched.FetchCancelled? then r == Escaped
      else if fetched.FetchFailed?
      then r == Returned(Result(DENY, Upstream, req.tool, ctx.userId, ctx.role, ctx.risk, None, None))
      else if forall d :: !OnlyOne(fetched.defs, req.tool, d)
      then r == Returned(Result(DENY, IntegrityStage, req.tool, ctx.userId, ctx.role, ctx.risk, None, None))
      else if AtVerify in faults
      then r == Returned(Result(DENY, Internal, req.tool, ctx.userId, ctx.role, ctx.risk, None, None))
      else if forall d :: OnlyOne(fetched.defs, req.tool, d) ==>
                !(req.tool in core.tables.pins && core.tables.pins[req.tool].fingerprint == Fingerprint(d))
      then r == Returned(Result(DENY, IntegrityStage, req.tool, ctx.userId, ctx.role, ctx.risk, None, None))
      else if AtInputScan in faults
      then r == Returned(Result(DENY, Internal, req.tool, ctx.userId, ctx.role, ctx.risk, None, None))
      else if !Scanning.Passes(p.scan, Scanning.Input, Scanning.MemberTexts(req.arguments),
                               Scanning.MembersHeight(req.arguments))
      then r == Returned(Result(DENY, InputScan, req.tool, ctx.userId, ctx.role, ctx.risk, None, None))
      else if AtBreaker in faults
      then r == Returned(Result(DENY, Internal, req.tool, ctx.userId, ctx.role, ctx.risk, None, None))
      else if granted then r == AwaitingReply(ctx)
      else r == Returned(Result(DENY, BreakerStage, req.tool, ctx.userId, ctx.role, ctx.risk,
                                Some(Breaking.RetryAfter(p.breaker, asked, now)), None))
  {
    if !fetched.FetchCancelled? {
      CallInOrder(p, core, req, fetched, now, faults);
      InputCleanIff(p, req);
      if fetched.Tools? {
        MatchOrNot(fetched.defs, req.tool);
      }
    }
  }

  lemma MatchOrNot(tools: seq<ToolDefinition>, name: Text)
    ensures |Matches(tools, name)| == 1 ==>
              forall d :: OnlyOne(tools, name, d) <==> d == Matches(tools, name)[0]
    ensures |Matches(tools, name)| != 1 ==> forall d :: !OnlyOne(tools, name, d)
    ensures |Matches(tools, name)| == 1 ==> Matches(tools, name)[0].name == name
  {
    forall d ensures Matches(tools, name) == [d] <==> OnlyOne(tools, name, d) {
      OnlyMatch(tools, name, d);
    }
    if |Matches(tools, name)| == 1 {
      assert Matches(tools, name) == [Matches(tools, name)[0]];
      MatchesAreNamed(tools, name);
    }
  }

  /** The input scan reads the arguments with the rules for inputs. */
  lemma InputCleanIff(p: Policy, req: Request)
    ensures InputClean(p, req)
            <==> Scanning.Passes(p.scan, Scanning.Input, Scanning.MemberTexts(req.arguments),
                                 Scanning.MembersHeight(req.arguments))
  {
    Scanning.CleanIffPasses(p.scan, Object(req.arguments), Scanning.Input, Lit("arguments"));
  }

  /** The output scan reads the text of the response with the rules for outputs. */
  lemma OutputCleanIff(p: Policy, text: Text)
    ensures OutputClean(p, text) <==> Scanning.Passes(p.scan, Scanning.Output, [text], 0)
  {
    Scanning.CleanIffPasses(p.scan, Str(text), Scanning.Output, Lit("response"));
  }

  /** After the call: a raise or a failed call is a denial, a cancelled one escapes, and a response that passes
      the output scan is handed on as it came. */
  lemma ReplyAnswers(p: Policy, core: Core, req: Request, ctx: Ctx, reply: Reply, wall: real, now: real,
      faults: set<Site>)
    ensures
      var r := AfterReply(p, core, req, ctx, reply, wall, now, faults).1;
      if AtRecord in faults
      then r == Returned(Result(DENY, Internal, req.tool, ctx.userId, ctx.role, ctx.risk, None, None))
      else match reply
        case CallFailed =>
          r == Returned(Result(DENY, Upstream, req.tool, ctx.userId, ctx.role, ctx.risk, None, None))
        case CallCancelled => r == Escaped
        case Replied(response) =>
          if AtOutputScan in faults
          then r == Returned(Result(DENY, Internal, req.tool, ctx.userId, ctx.role, ctx.risk, None, None))
          else if !Scanning.Passes(p.scan, Scanning.Output, [response.text], 0)
          then r == Returned(Result(DENY, OutputScan, req.tool, ctx.userId, ctx.role, ctx.risk, None, None))
          else r == Returned(Result(ALLOW, AllowedStage, req.tool, ctx.userId, ctx.role, ctx.risk, None,
                                    Some(response)))
  {
    ReplyInOrder(p, reply, faults);
    if reply.Replied? {
      OutputCleanIff(p, reply.response.text);
    }
  }

  // ----- the record --------------------------------------------------------------------------------

  /** A result leaves one audit attempt with its fields, the time and the session it came with, stored unless
      the store fails; anything else leaves none. */
  ghost predicate Recorded(before: Core, after: Core, r: Progress, sessionRef: Option<SessionRef>, wall: real,
      stored: bool)
  {
    if r.Returned? then
      var row := AuditRow(wall, r.result.userId, sessionRef, r.result.role, r.result.tool, r.result.risk,
                          r.result.decision, r.result.stage);
      && after.attempts == before.attempts + [row]
      && after.tables.audit == if stored then before.tables.audit + [row] else before.tables.audit
    else after.attempts == before.attempts && after.tables.audit == before.tables.audit
  }

  /** The first segment changes the checks and the record only: a validated caller is counted once. */
  lemma EntryLeaves(p: Policy, core: Core, req: Request, wall: real, now: real, faults: set<Site>)
    ensures
      var (after, r) := Entry(p, core, req, wall, now, faults);
      var session := Auth.Validate(core.tables, req.sessionId, wall);
      var known := AtValidate !in faults && session.Ok?;
      && Recorded(core, after, r, if known then Some(Prefix(Sha256(req.sessionId))) else None, wall, AtAudit !in faults)
      && after.checks == (if known && AtRateLimit !in faults
                          then core.checks + [Limiting.Arrival(session.value.userId, now)] else core.checks)
      && after.breakers == core.breakers && after.tables == core.tables.(audit := after.tables.audit)
  {
    EntryInOrder(p, core, req, wall, now, faults);
  }

  /** The second segment changes the tool's breaker and the record only: the breaker is asked exactly if all that
      comes before it passes. */
  lemma CallLeaves(p: Policy, core: Core, req: Request, ctx: Ctx, fetched: Fetched, wall: real, now: real,
      faults: set<Site>)
    ensures
      var (after, r) := AfterTools(p, core, req, ctx, fetched, wall, now, faults);
      var b := if req.tool in core.breakers then core.breakers[req.tool] else Breaking.FRESH;
      && Recorded(core, after, r, ctx.sessionRef, wall, AtAudit !in faults)
      && after.breakers == (if r.AwaitingReply? || (r.Returned? && r.result.stage == BreakerStage)
                            then core.breakers[req.tool := Breaking.Allow(p.breaker, b, now).0] else core.breakers)
      && after.checks == core.checks && after.tables == core.tables.(audit := after.tables.audit)
  {
    if !fetched.FetchCancelled? {
      CallInOrder(p, core, req, fetched, now, faults);
    }
  }

  /** The third segment changes the tool's breaker and the record only: whatever the ending, the breaker is told
      of a success exactly for a response that is no error. */
  lemma ReplyLeaves(p: Policy, core: Core, req: Request, ctx: Ctx, reply: Reply, wall: real, now: real,
      faults: set<Site>)
    ensures
      var (after, r) := AfterReply(p, core, req, ctx, reply, wall, now, faults);
      var b := if req.tool in core.breakers then core.breakers[req.tool] else Breaking.FRESH;
      && Recorded(core, after, r, ctx.sessionRef, wall, AtAudit !in faults)
      && after.breakers == (if AtRecord in faults then core.breakers
                            else core.breakers[req.tool :=
                                   if reply.Replied? && !reply.response.isError then Breaking.Succeed(b)
                                   else Breaking.Fail(p.breaker, b, now)])
      && after.checks == core.checks && after.tables == core.tables.(audit := after.tables.audit)
  {
    ReplyInOrder(p, reply, faults);
  }
}
