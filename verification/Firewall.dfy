/** The firewall object: the segments as the program runs them, step by step over its components. */
module FirewallObject {
  import opened Basics
  import opened JsonModel
  import opened Storage
  import opened Integrity
  import opened Gateway
  import Scanning
  import Limiting = RateLimiting
  import Breaking = CircuitBreaking
  import Auth = Authentication
  import Risk

  class Firewall {
    const policy: Policy
    const db: Database
    const auth: Auth.Authenticator
    const integrity: IntegrityChecker
    const scanner: Scanning.Scanner
    const limiter: Limiting.SlidingWindowRateLimiter
    const breakers: Breaking.CircuitBreakerRegistry
    ghost var attempts: seq<AuditRow>

    /** Starts over a store whose sessions are the history so far. */
    constructor (policy: Policy, db: Database, ghost signIns: seq<Auth.Event>)
      requires Auth.Holds(db.View(), signIns, policy.sessionTtl)
      ensures Valid() && this.policy == policy && this.db == db
      ensures View() == Core(db.View(), [], map[], [])
      ensures fresh(limiter) && fresh(breakers)
      ensures auth.Valid() && auth.log == signIns
    {
      this.policy, this.db := policy, db;
      auth := new Auth.Authenticator(db, policy.sessionTtl, signIns);
      integrity := new IntegrityChecker(db);
      scanner := new Scanning.Scanner(policy.scan);
      limiter := new Limiting.SlidingWindowRateLimiter(policy.quota);
      breakers := new Breaking.CircuitBreakerRegistry(policy.breaker);
      attempts := [];
    }

    ghost predicate Valid()
      reads this, limiter, breakers, breakers.breakers.Values
    {
      && limiter.Valid() && limiter.config == policy.quota
      && breakers.Valid() && breakers.config == policy.breaker
      && scanner.limits == policy.scan
      && auth.db == db && auth.ttl == policy.sessionTtl && integrity.db == db
    }

    ghost function View(): Core
      reads this, db, limiter, breakers, breakers.breakers.Values
    {
      Core(db.View(), limiter.log, breakers.View(), attempts)
    }

    /** The monotonic clock does not go backwards. */
    ghost predicate ClockReads(now: real)
      reads limiter
    {
      limiter.log != [] ==> Limiting.Last(limiter.log).time <= now
    }

    /** Hands the result to the audit log; an error there is swallowed. */
    method AuditResult(req: Request, ctx: Ctx, result: Result, wall: real, faults: set<Site>)
      modifies this`attempts, db`audit
      ensures attempts == old(attempts) + [RowOf(req, ctx, result, wall)]
      ensures db.audit == if AtAudit in faults then old(db.audit) else old(db.audit) + [RowOf(req, ctx, result, wall)]
    {
      var row := AuditRow(wall, ctx.userId, ctx.sessionRef, ctx.role, req.tool, result.risk,
                          result.decision, result.stage);
      attempts := attempts + [row];
      if AtAudit !in faults {
        db.AddAudit(row);
      }
    }

    method Finish(req: Request, ctx: Ctx, result: Result, wall: real, faults: set<Site>) returns (r: Progress)
      requires Valid()
      modifies this`attempts, db`audit
      ensures Valid() && (View(), r) == Conclude(old(View()), req, ctx, result, wall, faults)
    {
      AuditResult(req, ctx, result, wall, faults);
      r := Returned(result);
    }

    /** Steps 1 to 5 of the pipeline. The verdict is the denial, or the exception, that ends them. */
    method EntrySteps(req: Request, wall: real, now: real, faults: set<Site>) returns (verdict: Guard, ctx: Ctx)
      requires Valid() && ClockReads(now)
      modifies limiter
      ensures Valid()
      ensures var (k, g) := EntryVerdict(policy, old(View()), req, wall, now, faults);
              && verdict == g
              && ctx == EntryCtx(policy, old(View()), req, wall, k)
              && View() == Counted(old(View()), req, wall, now, k, faults)
    {
      ctx := NOBODY;
      if AtValidate in faults {
        return Raise, ctx;
      }
      var session := auth.ValidateSession(req.sessionId, wall);
      if session.Err? {
        return Deny(Authentication, None), ctx;
      }
      var s := session.value;
      ctx := ctx.(userId := Some(s.userId), role := Some(s.role), sessionRef := Some(s.sessionRef));
      if AtRateLimit in faults {
        return Raise, ctx;
      }
      var rl := limiter.Check(s.userId, now);
      if rl.Refused? {
        return Deny(RateLimit, Some(rl.retryAfter)), ctx;
      }
      if !ValidToolName(req.tool) {
        return Deny(Validation, None), ctx;
      }
      if AtClassify in faults {
        return Raise, ctx;
      }
      ctx := ctx.(risk := Some(Risk.Classify(policy.toolRisk, req.tool)));
      if AtAuthorize in faults {
        return Raise, ctx;
      }
      if !Permitted(policy, s.role, req.tool, ctx.risk.value) {
        return Deny(Authorization, None), ctx;
      }
      verdict := Pass;
    }

    /** An exception that nothing else catches becomes a denial. */
    method Begin(req: Request, wall: real, now: real, faults: set<Site>) returns (r: Progress)
      requires Valid() && ClockReads(now)
      modifies this`attempts, db`audit, limiter
      ensures Valid() && (View(), r) == Entry(policy, old(View()), req, wall, now, faults)
    {
      EntryInOrder(policy, View(), req, wall, now, faults);
      var verdict, ctx := EntrySteps(req, wall, now, faults);
      if verdict.Pass? {
        r := AwaitingTools(ctx);
      } else {
        r := Finish(req, ctx, Denial(req, ctx, verdict), wall, faults);
      }
    }

    /** The fetched definitions of this name. */
    static method Named(tools: seq<ToolDefinition>, name: Text) returns (matches: seq<ToolDefinition>)
      ensures matches == Matches(tools, name)
    {
      matches := [];
      for i := 0 to |tools|
        invariant matches == Matches(tools[..i], name)
      {
        assert tools[..i + 1][..i] == tools[..i];
        if tools[i].name == name {
          matches := matches + [tools[i]];
        }
      }
      assert tools[..|tools|] == tools;
    }

    /** Steps 6 and 7: integrity of the fetched definition, input scan. */
    method InspectSteps(req: Request, fetched: Fetched, faults: set<Site>) returns (verdict: Guard)
      requires Valid() && !fetched.FetchCancelled?
      ensures verdict == InspectVerdict(policy, db.pins, req, fetched, faults).1
      ensures Valid() && View() == old(View())
    {
      if fetched.FetchFailed? {
        return Deny(Upstream, None);
      }
      var matches := Named(fetched.defs, req.tool);
      if matches == [] {
        return Deny(IntegrityStage, None);
      }
      if |matches| > 1 {
        return Deny(IntegrityStage, None);
      }
      if AtVerify in faults {
        return Raise;
      }
      if !integrity.VerifyTool(matches[0]).OkIntegrity? {
        return Deny(IntegrityStage, None);
      }
      if AtInputScan in faults {
        return Raise;
      }
      var found := scanner.ScanValue(Object(req.arguments), Scanning.Input, Lit("arguments"));
      if found != [] {
        return Deny(InputScan, None);
      }
      verdict := Pass;
    }

    /** Steps 6 to 8: what comes before the breaker, and the breaker. */
    method CallSteps(req: Request, fetched: Fetched, now: real, faults: set<Site>) returns (verdict: Guard)
      requires Valid() && !fetched.FetchCancelled?
      modifies breakers, breakers.breakers.Values
      ensures Valid() && fresh(breakers.breakers.Values - old(breakers.breakers.Values))
      ensures var (k, g) := CallVerdict(policy, old(View()), req, fetched, now, faults);
              && verdict == g
              && View() == if k < 3 || AtBreaker in faults then old(View()) else Ask(policy, old(View()), req.tool, now)
      ensures verdict.Pass? ==> req.tool in breakers.breakers
    {
      verdict := InspectSteps(req, fetched, faults);
      if verdict.Pass? {
        if AtBreaker in faults {
          return Raise;
        }
        verdict := AskBreaker(req.tool, now);
      }
    }

    method AskBreaker(tool: Text, now: real) returns (verdict: Guard)
      requires Valid()
      modifies breakers, breakers.breakers.Values
      ensures Valid() && fresh(breakers.breakers.Values - old(breakers.breakers.Values))
      ensures verdict == BreakerGuard(policy, old(View()), tool, now)
      ensures View() == Ask(policy, old(View()), tool, now) && tool in breakers.breakers
    {
      var allowed, retryAfter := breakers.Ask(tool, now);
      verdict := if allowed then Pass else Deny(BreakerStage, Some(retryAfter));
    }

    method ToolsFetched(req: Request, ctx: Ctx, fetched: Fetched, wall: real, now: real, faults: set<Site>)
      returns (r: Progress)
      requires Valid()
      modifies this`attempts, db`audit, breakers, breakers.breakers.Values
      ensures Valid() && fresh(breakers.breakers.Values - old(breakers.breakers.Values))
      ensures (View(), r) == AfterTools(policy, old(View()), req, ctx, fetched, wall, now, faults)
      ensures r.AwaitingReply? ==> req.tool in breakers.breakers
    {
      if fetched.FetchCancelled? {
        return Escaped;
      }
      CallInOrder(policy, View(), req, fetched, now, faults);
      var verdict := CallSteps(req, fetched, now, faults);
      if verdict.Pass? {
        r := AwaitingReply(ctx);
      } else {
        r := Finish(req, ctx, Denial(req, ctx, verdict), wall, faults);
      }
    }

    /** Steps 9 and 10. Whatever the ending of the call, it is reported to the breaker first. */
    method ReplySteps(req: Request, reply: Reply, now: real, faults: set<Site>) returns (verdict: Guard)
      requires Valid() && req.tool in breakers.breakers
      modifies breakers.breakers[req.tool]
      ensures Valid()
      ensures verdict == ReplyVerdict(policy, reply, faults)
      ensures View() == if AtRecord in faults then old(View()) else Tell(policy, old(View()), req.tool, reply, now)
    {
      if AtRecord in faults {
        return Raise;
      }
      match reply
      case CallCancelled =>
        breakers.Tell(req.tool, false, now);
        verdict := Pass;
      case CallFailed =>
        breakers.Tell(req.tool, false, now);
        verdict := Deny(Upstream, None);
      case Replied(response) =>
        breakers.Tell(req.tool, !response.isError, now);
        if AtOutputScan in faults {
          return Raise;
        }
        var found := scanner.ScanValue(Str(response.text), Scanning.Output, Lit("response"));
        verdict := if found != [] then Deny(OutputScan, None) else Pass;
    }

    method ReplyReceived(req: Request, ctx: Ctx, reply: Reply, wall: real, now: real, faults: set<Site>)
      returns (r: Progress)
      requires Valid() && req.tool in breakers.breakers
      modifies this`attempts, db`audit, breakers.breakers[req.tool]
      ensures Valid() && (View(), r) == AfterReply(policy, old(View()), req, ctx, reply, wall, now, faults)
    {
      ReplyInOrder(policy, reply, faults);
      var verdict := ReplySteps(req, reply, now, faults);
      if !verdict.Pass? {
        r := Finish(req, ctx, Denial(req, ctx, verdict), wall, faults);
      } else if reply.Replied? {
        r := Finish(req, ctx, AllowResult(req, ctx, reply.response), wall, faults);
      } else {
        r := Escaped;
      }
    }

    // ----- access, approval and discovery ----------------------------------------------------------

    /** The user has not used up the quota, by the full history of checks. */
    ghost predicate RateAllows(checks: seq<Limiting.Arrival>, user: Text, now: real) {
      Limiting.Decide(policy.quota, Limiting.Admitted(policy.quota, checks, user), now).Allowed?
    }

    method Authenticate(sessionId: Text, wall: real, now: real) returns (r: Access)
      requires Valid() && ClockReads(now)
      modifies limiter
      ensures Valid() && (View(), r) == AccessOf(policy, old(View()), sessionId, false, wall, now)
      ensures var session := Auth.Validate(db.View(), sessionId, wall);
              && !r.Forbidden? && (r.NoSession? <==> session.Err?)
              && (r.Granted? <==> session.Ok? && RateAllows(old(limiter.log), session.value.userId, now))
              && (r.Granted? ==> r.session == session.value)
    {
      var session := auth.ValidateSession(sessionId, wall);
      if session.Err? {
        return NoSession(session.error);
      }
      var rl := limiter.Check(session.value.userId, now);
      if rl.Refused? {
        return Limited(rl.retryAfter);
      }
      r := Granted(session.value);
    }

    method RequireManager(sessionId: Text, wall: real, now: real) returns (r: Access)
      requires Valid() && ClockReads(now)
      modifies limiter
      ensures Valid() && (View(), r) == AccessOf(policy, old(View()), sessionId, true, wall, now)
      ensures var session := Auth.Validate(db.View(), sessionId, wall);
              var inQuota := session.Ok? && RateAllows(old(limiter.log), session.value.userId, now);
              var manages := session.Ok? && session.value.role in policy.roles
                             && policy.roles[session.value.role].canManage;
              && (r.NoSession? <==> session.Err?) && (r.Granted? <==> inQuota && manages)
              && (r.Forbidden? <==> inQuota && !manages) && (r.Granted? ==> r.session == session.value)
    {
      r := Authenticate(sessionId, wall, now);
      if r.Granted? && !CanManage(policy, r.session.role) {
        r := Forbidden;
      }
    }

    /** Pins the fetched definitions of these names, or of all tools. An approver who may not manage is
        refused before the fetch; a raise ends the batch where it is. */
    method ApproveTools(approver: Auth.UserSession, names: Option<seq<Text>>, tools: seq<ToolDefinition>, wall: real,
        fault: Option<ApprovalFault>)
      returns (r: BatchResult)
      requires Valid()
      modifies this`attempts, db`pins, db`audit
      ensures Valid()
      ensures if !(approver.role in policy.roles && policy.roles[approver.role].canManage)
              then r == NotAllowed && View() == old(View())
              else var wanted := Wanted(names, tools);
                   && r == ResultOf(policy, old(db.pins), tools, wanted, fault)
                   && View() == ApprovalOf(policy, old(View()), approver, wanted, tools, wall, fault)
    {
      if !CanManage(policy, approver.role) {
        return NotAllowed;
      }
      r := ApproveWanted(Wanted(names, tools), tools, approver, wall, fault);
    }

    method ApproveWanted(wanted: seq<Text>, tools: seq<ToolDefinition>, approver: Auth.UserSession, wall: real,
        fault: Option<ApprovalFault>)
      returns (r: BatchResult)
      requires Valid() && Distinct(wanted)
      modifies this`attempts, db`pins, db`audit
      ensures Valid() && r == ResultOf(policy, old(db.pins), tools, wanted, fault)
      ensures View() == ApprovalOf(policy, old(View()), approver, wanted, tools, wall, fault)
    {
      var counts, byName := Tally(tools);
      ghost var core := View();
      var outcomes := [];
      NothingApproved(core, approver, tools, wall);
      for i := 0 to |wanted|
        invariant Valid() && !Strikes(fault, i)
        invariant outcomes == Outcomes(policy, core.tables.pins, tools, wanted[..i])
        invariant View() == ApproveBatch(policy, core, approver, wanted[..i], tools, wall)
        modifies this`attempts, db`pins, db`audit
      {
        if fault.Some? && fault.value.at == i {
          StopAt(wanted[i], counts, byName, tools, approver, wall, fault.value.site);
          return Raised;
        }
        outcomes := ApproveNext(core, wanted, i, outcomes, counts, byName, tools, approver, wall);
      }
      assert wanted[..|wanted|] == wanted;
      r := Done(outcomes);
    }

    lemma NothingApproved(core: Core, approver: Auth.UserSession, tools: seq<ToolDefinition>, wall: real)
      ensures ApproveBatch(policy, core, approver, [], tools, wall) == core
    {
      assert ApprovalRows(policy, approver, Outcomes(policy, core.tables.pins, tools, []), wall) == [];
    }

    /** One more wanted name, after the first `i`. */
    method ApproveNext(ghost core: Core, wanted: seq<Text>, i: nat, before: seq<Outcome>, counts: map<Text, nat>,
        byName: map<Text, ToolDefinition>, ghost tools: seq<ToolDefinition>, approver: Auth.UserSession, wall: real)
      returns (outcomes: seq<Outcome>)
      requires Valid() && Tallied(tools, counts, byName) && Distinct(wanted) && i < |wanted|
      requires View() == ApproveBatch(policy, core, approver, wanted[..i], tools, wall)
      requires before == Outcomes(policy, core.tables.pins, tools, wanted[..i])
      modifies this`attempts, db`pins, db`audit
      ensures Valid() && View() == ApproveBatch(policy, core, approver, wanted[..i + 1], tools, wall)
      ensures outcomes == Outcomes(policy, core.tables.pins, tools, wanted[..i + 1])
    {
      BatchNext(policy, core, approver, wanted[..i], wanted[i], tools, wall);
      assert wanted[..i + 1] == wanted[..i] + [wanted[i]];
      var outcome := ApproveAndRecord(wanted[i], counts, byName, tools, approver, wall);
      outcomes := before + [outcome];
    }

    /** One name, raising at this site. */
    method StopAt(name: Text, counts: map<Text, nat>, byName: map<Text, ToolDefinition>,
        ghost tools: seq<ToolDefinition>,
        approver: Auth.UserSession, wall: real, site: ApprovalSite)
      requires Valid() && Tallied(tools, counts, byName)
      modifies this`attempts, db`pins
      ensures Valid() && View() == StoppedAt(policy, old(View()), approver, name, tools, wall, site)
    {
      if !site.BeforePin? {
        var outcome := Judge(name, counts, byName, tools, approver, wall);
        if site.AtRecording? {
          attempts := attempts + [ApprovalRow(policy, approver, outcome, wall)];
        }
      }
    }

    method ApproveAndRecord(name: Text, counts: map<Text, nat>, byName: map<Text, ToolDefinition>,
                            ghost tools: seq<ToolDefinition>, approver: Auth.UserSession, wall: real)
      returns (outcome: Outcome)
      requires Valid() && Tallied(tools, counts, byName)
      modifies this`attempts, db`pins, db`audit
      ensures Valid() && outcome == OutcomeOf(policy, old(db.pins), tools, name)
      ensures View() == ApproveBatch(policy, old(View()), approver, [name], tools, wall)
    {
      ghost var pins := db.pins;
      outcome := Judge(name, counts, byName, tools, approver, wall);
      var row := ApprovalRow(policy, approver, outcome, wall);
      attempts := attempts + [row];
      db.AddAudit(row);
      PinsAfterNext(policy, pins, tools, [], name, approver.userId, wall);
      assert ApprovalRows(policy, approver, Outcomes(policy, pins, tools, [name]), wall) == [row];
    }

    /** Counts the definitions of each name; of several the last one is kept. */
    static method Tally(tools: seq<ToolDefinition>) returns (counts: map<Text, nat>, byName: map<Text, ToolDefinition>)
      ensures Tallied(tools, counts, byName)
    {
      counts, byName := map[], map[];
      for i := 0 to |tools|
        invariant Tallied(tools[..i], counts, byName)
      {
        var d := tools[i];
        assert tools[..i + 1][..i] == tools[..i];
        counts := counts[d.name := (if d.name in counts then counts[d.name] else 0) + 1];
        byName := byName[d.name := d];
      }
      assert tools[..|tools|] == tools;
    }

    static ghost predicate Tallied(tools: seq<ToolDefinition>, counts: map<Text, nat>,
        byName: map<Text, ToolDefinition>) {
      forall n :: && (n in counts <==> Matches(tools, n) != []) && (n in byName <==> n in counts)
                  && (n in counts ==> counts[n] == |Matches(tools, n)|
                                      && byName[n] == Matches(tools, n)[|Matches(tools, n)| - 1])
    }

    /** The outcome of one wanted name, and its pin. */
    method Judge(name: Text, counts: map<Text, nat>, byName: map<Text, ToolDefinition>,
        ghost tools: seq<ToolDefinition>,
        approver: Auth.UserSession, wall: real)
      returns (outcome: Outcome)
      requires Valid() && Tallied(tools, counts, byName)
      modifies db`pins
      ensures Valid() && outcome == OutcomeOf(policy, old(db.pins), tools, name)
      ensures View() == old(View()).(tables := old(View()).tables.(pins :=
                          PinsAfterOne(policy, old(db.pins), tools, name, approver.userId, wall)))
    {
      if name !in byName {
        return Outcome(name, NotFound, None);
      }
      if counts[name] > 1 {
        return Outcome(name, Rejected, None);
      }
      MatchesAreNamed(tools, name);
      assert Matches(tools, name) == [byName[name]];
      outcome := ApproveOne(byName[name], tools, approver, wall);
    }

    method ApproveOne(defn: ToolDefinition, ghost tools: seq<ToolDefinition>, approver: Auth.UserSession, wall: real)
      returns (outcome: Outcome)
      requires Valid() && Matches(tools, defn.name) == [defn]
      modifies db`pins
      ensures outcome == OutcomeOf(policy, old(db.pins), tools, defn.name)
      ensures Accepted(outcome.status)
              <==> Scanning.Passes(policy.scan, Scanning.Description, DefinitionTexts(defn), DefinitionHeight(defn))
      ensures db.pins == PinsAfterOne(policy, old(db.pins), tools, defn.name, approver.userId, wall)
    {
      var found := scanner.ScanValue(Object(Payload(defn)), Scanning.Description, Lit("definition"));
      ScanCleanIff(policy.scan, defn);
      if found != [] {
        return Outcome(defn.name, Rejected, None);
      }
      var previous := integrity.ApprovedFingerprint(defn.name);
      var fp := integrity.Approve(defn, approver.userId, wall);
      var status := if previous.None? then Approved else if previous.value == fp then Unchanged else Updated;
      outcome := Outcome(defn.name, status, Some(fp));
    }

    /** What a caller with this role may see of the fetched tools. */
    method ListTools(role: Text, tools: seq<ToolDefinition>) returns (infos: seq<ToolInfo>)
      requires Valid()
      ensures infos == Listing(policy, db.pins, role, tools)
    {
      var manager := CanManage(policy, role);
      infos := [];
      for i := 0 to |tools|
        invariant infos == Listing(policy, db.pins, role, tools[..i])
      {
        var defn := tools[i];
        assert tools[..i + 1][..i] == tools[..i];
        var risk := Risk.Classify(policy.toolRisk, defn.name);
        var status := integrity.VerifyTool(defn);
        if !manager {
          if !status.OkIntegrity? || !Permitted(policy, role, defn.name, risk) {
            continue;
          }
        }
        infos := infos + [ToolInfo(defn.name, defn.description, defn.inputSchema, risk, status)];
      }
      assert tools[..|tools|] == tools;
    }
  }
}
