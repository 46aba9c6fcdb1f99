/** What every step of a run keeps for answers and audit records. */
module RunAnswers {
  import opened Basics
  import opened Storage
  import opened Integrity
  import opened Gateway
  import opened GatewayRuns
  import Scanning
  import Risk
  import Auth = Authentication

  // ----- one audit attempt for each answer ------------------------------------------------------------

  function AnswerSummaries(): Event -> Option<Summary> {
    (e: Event) => if e.Answered? then Some(SummaryOf(e.result)) else None
  }

  /** The attempted audit records of requests; those of approvals are left out. */
  function RequestSummaries(rows: seq<AuditRow>): seq<Summary> {
    if rows == [] then [] else
      RequestSummaries(rows[..|rows| - 1])
      + (if rows[|rows| - 1].stage == Approval then [] else [RowSummary(rows[|rows| - 1])])
  }

  ghost predicate OnlyApprovals(rows: seq<AuditRow>) {
    forall i :: 0 <= i < |rows| ==> rows[i].stage == Approval
  }

  lemma {:induction false} ApprovalsLeftOut(rows: seq<AuditRow>, more: seq<AuditRow>)
    requires OnlyApprovals(more)
    ensures RequestSummaries(rows + more) == RequestSummaries(rows)
    decreases |more|
  {
    if more == [] {
      assert rows + more == rows;
    } else {
      assert more[|more| - 1].stage == Approval;
      assert (rows + more)[..|rows + more| - 1] == rows + more[..|more| - 1];
      ApprovalsLeftOut(rows, more[..|more| - 1]);
    }
  }

  ghost predicate Audited(attempts: seq<AuditRow>, log: seq<Event>) {
    RequestSummaries(attempts) == Pick(log, AnswerSummaries())
  }

  ghost predicate NoAnswers(es: seq<Event>) {
    forall i :: 0 <= i < |es| ==> !es[i].Answered?
  }

  lemma AuditedOff(attempts: seq<AuditRow>, log: seq<Event>, es: seq<Event>)
    requires Audited(attempts, log) && NoAnswers(es)
    ensures Audited(attempts, log + es)
  {
    PickNothing(log, es, AnswerSummaries());
  }

  /** An answer comes with its record. */
  lemma AuditedAnswer(before: Core, after: Core, log: seq<Event>, rid: nat, result: Option<Result>)
    requires Audited(before.attempts, log)
    requires if result.None? then after.attempts == before.attempts
             else AuditedAs(before, after, result.value) && result.value.stage != Approval
    ensures Audited(after.attempts, log + AnswerEvents(rid, result))
  {
    if result.None? {
      AuditedOff(before.attempts, log, []);
    } else {
      var row :| after.attempts == before.attempts + [row] && RowSummary(row) == SummaryOf(result.value);
      assert after.attempts[..|after.attempts| - 1] == before.attempts;
      PickNext(log, Answered(rid, result.value), AnswerSummaries());
    }
  }

  lemma AuditedStep(p: Policy, w: World, after: World, s: Shape)
    requires Audited(w.core.attempts, w.log) && LogMoves(p, w, after, s) && AttemptsMove(p, w.core, after.core, s)
    ensures Audited(after.core.attempts, after.log)
  {
    var pins := w.core.tables.pins;
    var first := FirstEvents(p, pins, after.now, s);
    EventKinds(p, pins, after.now, s);
    AuditedOff(w.core.attempts, w.log, first);
    if s.Approves? {
      var outcomes := Outcomes(p, pins, s.tools, s.names[..s.attempted]);
      ApprovalsLeftOut(w.core.attempts, ApprovalRows(p, s.approver, outcomes, s.wall));
      AuditedOff(after.core.attempts, w.log + first, LastEvents(s));
    } else if s.Enters? || s.Reports? {
      AuditedAnswer(w.core, after.core, w.log + first, s.rid, s.result);
    } else if s.DeniesCall? {
      AuditedAnswer(w.core, after.core, w.log + first, s.rid, Some(s.denial));
    } else {
      AuditedOff(after.core.attempts, w.log + first, LastEvents(s));
    }
  }

  // ----- one answer for each request -------------------------------------------------------------------

  function ResultsOf(rid: nat): Event -> Option<Result> {
    (e: Event) => if e.Answered? && e.rid == rid then Some(e.result) else None
  }

  function AnswerIn(requests: map<nat, Phase>, rid: nat): seq<Result> {
    if rid in requests && requests[rid].Finished? then [requests[rid].result] else []
  }

  /** A request has been answered once if it is finished and not at all before or if cancelled. */
  ghost predicate AnsweredOnce(w: World, rid: nat) {
    Pick(w.log, ResultsOf(rid)) == AnswerIn(w.requests, rid)
  }

  lemma ResultsOff(log: seq<Event>, es: seq<Event>, rid: nat)
    requires NoAnswers(es)
    ensures Pick(log + es, ResultsOf(rid)) == Pick(log, ResultsOf(rid))
  {
    PickNothing(log, es, ResultsOf(rid));
  }

  lemma ResultsNext(log: seq<Event>, other: nat, result: Option<Result>, rid: nat)
    ensures Pick(log + AnswerEvents(other, result), ResultsOf(rid))
            == Pick(log, ResultsOf(rid)) + (if other == rid then Found(result) else [])
  {
    if result.None? || other != rid {
      PickNothing(log, AnswerEvents(other, result), ResultsOf(rid));
    } else {
      PickNext(log, Answered(rid, result.value), ResultsOf(rid));
    }
  }

  /** A request that is not finished gets its answer, if any, together with its new phase. */
  lemma AnswerNext(log: seq<Event>, requests: map<nat, Phase>, other: nat, phase: Phase, result: Option<Result>,
      rid: nat)
    requires Pick(log, ResultsOf(rid)) == AnswerIn(requests, rid)
    requires other in requests ==> !requests[other].Finished?
    requires if phase.Finished? then result == Some(phase.result) else result.None?
    ensures Pick(log + AnswerEvents(other, result), ResultsOf(rid)) == AnswerIn(requests[other := phase], rid)
  {
    ResultsNext(log, other, result, rid);
    assert AnswerIn(requests, rid) + [] == AnswerIn(requests, rid);
  }

  /** The request a step moves on, and the answer it gives it. */
  function AnswerOf(s: Shape): Option<Result> {
    match s
    case Enters(_, _, _, _, _, _, result) => result
    case DeniesCall(_, _, _, denial) => Some(denial)
    case Reports(_, _, _, _, result, _) => result
    case _ => None
  }

  /** The step gives a request that is not finished a new phase, and an answer exactly if that is its end. */
  ghost predicate AnswersWithPhase(w: World, after: World, s: Shape)
    requires OfRequest(s)
  {
    && s.rid in after.requests && after.requests == w.requests[s.rid := after.requests[s.rid]]
    && (s.rid in w.requests ==> !w.requests[s.rid].Finished?)
    && var phase := after.requests[s.rid];
    if phase.Finished? then AnswerOf(s) == Some(phase.result) else AnswerOf(s).None?
  }

  lemma AnswerComesWithPhase(p: Policy, w: World, after: World, s: Shape)
    requires RequestsMove(p, w, after, s) && OfRequest(s)
    ensures AnswersWithPhase(w, after, s)
  {
  }

  lemma LastAnswer(s: Shape)
    ensures s.Enters? || s.DeniesCall? || s.Reports? ==> LastEvents(s) == AnswerEvents(s.rid, AnswerOf(s))
  {
  }

  lemma AnswerStep(p: Policy, w: World, after: World, s: Shape, rid: nat)
    requires AnsweredOnce(w, rid) && LogMoves(p, w, after, s)
    requires (s.Enters? || s.DeniesCall? || s.Reports?) && AnswersWithPhase(w, after, s)
    ensures AnsweredOnce(after, rid)
  {
    var first := FirstEvents(p, w.core.tables.pins, after.now, s);
    EventKinds(p, w.core.tables.pins, after.now, s);
    ResultsOff(w.log, first, rid);
    LastAnswer(s);
    AnswerNext(w.log + first, w.requests, s.rid, after.requests[s.rid], AnswerOf(s), rid);
  }

  lemma NoAnswerStep(p: Policy, w: World, after: World, s: Shape, rid: nat)
    requires AnsweredOnce(w, rid) && LogMoves(p, w, after, s)
    requires !s.Enters? && !s.DeniesCall? && !s.Reports?
    requires if OfRequest(s) then AnswersWithPhase(w, after, s) else after.requests == w.requests
    ensures AnsweredOnce(after, rid)
  {
    var first := FirstEvents(p, w.core.tables.pins, after.now, s);
    EventKinds(p, w.core.tables.pins, after.now, s);
    ResultsOff(w.log, first, rid);
    ResultsOff(w.log + first, LastEvents(s), rid);
  }

  lemma AnsweredOnceStep(p: Policy, w: World, after: World, s: Shape, rid: nat)
    requires AnsweredOnce(w, rid) && LogMoves(p, w, after, s) && RequestsMove(p, w, after, s)
    ensures AnsweredOnce(after, rid)
  {
    if OfRequest(s) {
      AnswerComesWithPhase(p, w, after, s);
    }
    if s.Enters? || s.DeniesCall? || s.Reports? {
      AnswerStep(p, w, after, s, rid);
    } else {
      NoAnswerStep(p, w, after, s, rid);
    }
  }

  // ----- guards held in order ----------------------------------------------------------------------------

  /** The context names the caller whose session was valid at this moment, and the risk of the tool. */
  ghost predicate Knows(p: Policy, req: Request, m: Moment, ctx: Ctx) {
    var session := Auth.Validate(m.core.tables, req.sessionId, m.wall);
    && session.Ok?
    && ctx == Ctx(Some(session.value.userId), Some(session.value.role), Some(Prefix(Sha256(req.sessionId))),
                  Some(Risk.Classify(p.toolRisk, req.tool)))
  }

  /** An allowed result, field by field: the caller whose session was valid at this moment, with the role of that
      moment, the risk of the tool, and the response; no time to wait. */
  ghost predicate AllowedAs(p: Policy, req: Request, m: Moment, response: Response, result: Result) {
    var session := Auth.Validate(m.core.tables, req.sessionId, m.wall);
    && session.Ok?
    && result.decision == ALLOW && result.stage == AllowedStage && result.tool == req.tool
    && result.userId == Some(session.value.userId) && result.role == Some(session.value.role)
    && result.risk == Some(Risk.Classify(p.toolRisk, req.tool))
    && result.retryAfter == None && result.response == Some(response)
  }

  lemma EntryKnows(p: Policy, req: Request, m: Moment)
    requires EntryHolds(p, req, m)
    ensures Knows(p, req, m, EntryCtx(p, m.core, req, m.wall, 5))
  {
    EntryHoldsIff(p, req, m);
  }

  /** A denial carries nothing. An allowed request passed every entry guard at one moment, every call
      guard at a later one, and its response passed the output scan; its result says who was found to
      ask, in what role and at what risk, and holds the response. */
  ghost predicate Sound(p: Policy, phase: Phase) {
    match phase
    case Fetching(req, ctx, began) => EntryHolds(p, req, began) && Knows(p, req, began, ctx)
    case Calling(req, ctx, began, fetched, tools) => Passed(p, req, began, fetched, tools) && Knows(p, req, began, ctx)
    case Finished(req, result, NoTrail) => Denies(req, result)
    case Finished(req, result, Trail(began, fetched, tools, response)) =>
      && AllowedAs(p, req, began, response, result) && Passed(p, req, began, fetched, tools)
      && Scanning.Passes(p.scan, Scanning.Output, [response.text], 0)
    case Cancelled(_) => true
  }

  ghost predicate Passed(p: Policy, req: Request, began: Moment, fetched: Moment, tools: seq<ToolDefinition>) {
    EntryHolds(p, req, began) && CallHolds(p, req, fetched, tools) && began.now <= fetched.now
  }

  function Clock(phase: Phase): Option<real> {
    match phase
    case Fetching(_, _, began) => Some(began.now)
    case Calling(_, _, _, fetched, _) => Some(fetched.now)
    case _ => None
  }

  ghost predicate SoundIn(p: Policy, w: World, rid: nat) {
    rid in w.requests ==>
      var phase := w.requests[rid];
      Sound(p, phase) && (Clock(phase).Some? ==> Clock(phase).value <= w.now)
  }

  lemma SoundEntry(p: Policy, w: World, after: World, s: Shape)
    requires RequestsMove(p, w, after, s) && s.Enters?
    ensures SoundIn(p, after, s.rid)
  {
    if s.result.None? {
      EntryKnows(p, s.req, Moment(w.core, s.wall, after.now));
    }
  }

  lemma SoundCall(p: Policy, w: World, after: World, s: Shape)
    requires RequestsMove(p, w, after, s) && (s.CancelsFetch? || s.DeniesCall? || s.Calls?)
    requires SoundIn(p, w, s.rid) && w.now <= after.now
    ensures SoundIn(p, after, s.rid)
  {
  }

  lemma SoundReport(p: Policy, w: World, after: World, s: Shape)
    requires RequestsMove(p, w, after, s) && s.Reports? && SoundIn(p, w, s.rid)
    ensures SoundIn(p, after, s.rid)
  {
  }

  lemma SoundElsewhere(p: Policy, w: World, after: World, s: Shape, rid: nat)
    requires RequestsMove(p, w, after, s) && SoundIn(p, w, rid) && w.now <= after.now && (OfRequest(s) ==> s.rid != rid)
    ensures SoundIn(p, after, rid)
  {
  }

  lemma SoundStep(p: Policy, w: World, after: World, s: Shape, rid: nat)
    requires SoundIn(p, w, rid) && RequestsMove(p, w, after, s) && w.now <= after.now
    ensures SoundIn(p, after, rid)
  {
    if !OfRequest(s) || s.rid != rid {
      SoundElsewhere(p, w, after, s, rid);
    } else if s.Enters? {
      SoundEntry(p, w, after, s);
    } else if s.Reports? {
      SoundReport(p, w, after, s);
    } else {
      SoundCall(p, w, after, s);
    }
  }
}
