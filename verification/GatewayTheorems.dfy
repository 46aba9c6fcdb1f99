/** What approval and discovery guarantee for one batch and one listing. */
module GatewayTheorems {
  import opened Basics
  import opened Storage
  import opened Integrity
  import opened Gateway
  import opened GatewayAnswers
  import Scanning
  import Risk
  import Limiting = RateLimiting
  import LimiterTheorems
  import Breaking = CircuitBreaking
  import Auth = Authentication

  /** The batch pins this name. */
  predicate Takes(p: Policy, pins: map<Text, Pin>, tools: seq<ToolDefinition>, names: seq<Text>, name: Text) {
    name in names && Accepted(OutcomeOf(p, pins, tools, name).status)
  }

  /** What a batch makes of the pin of one name. */
  ghost predicate PinnedAsJudged(p: Policy, pins: map<Text, Pin>, after: map<Text, Pin>, tools: seq<ToolDefinition>,
      taken: bool, approver: Text, wall: real, name: Text)
  {
    if taken
    then && |Matches(tools, name)| == 1 && name in after
         && after[name] == Pin(Fingerprint(Matches(tools, name)[0]), wall, approver)
    else (name in after <==> name in pins) && (name in pins ==> after[name] == pins[name])
  }

  lemma JudgedOne(p: Policy, pins: map<Text, Pin>, tools: seq<ToolDefinition>, last: Text, approver: Text, wall: real,
      name: Text)
    ensures PinnedAsJudged(p, pins, PinsAfterOne(p, pins, tools, last, approver, wall), tools,
                           name == last && Accepted(OutcomeOf(p, pins, tools, name).status), approver, wall, name)
  {
  }

  /** After a batch, name by name. */
  lemma {:induction false} PinsPointwise(p: Policy, pins: map<Text, Pin>, tools: seq<ToolDefinition>,
      names: seq<Text>, approver: Text, wall: real, name: Text)
    requires Distinct(names)
    ensures PinnedAsJudged(p, pins, PinsAfter(p, pins, tools, names, approver, wall), tools,
                           Takes(p, pins, tools, names, name), approver, wall, name)
  {
    if names != [] {
      var most, last := names[..|names| - 1], names[|names| - 1];
      var before := PinsAfter(p, pins, tools, most, approver, wall);
      assert names == most + [last];
      JudgedOne(p, before, tools, last, approver, wall, name);
      if name == last {
        assert last !in most;
        OtherPinsStay(p, pins, tools, most, approver, wall, name);
      } else {
        PinsPointwise(p, pins, tools, most, approver, wall, name);
      }
    }
  }

  /** The name is asked for, and this is the only definition of it and passes the scan of descriptions. */
  ghost predicate Taken(p: Policy, tools: seq<ToolDefinition>, names: seq<Text>, name: Text, d: ToolDefinition) {
    && name in names && OnlyOne(tools, name, d)
    && Scanning.Passes(p.scan, Scanning.Description, DefinitionTexts(d), DefinitionHeight(d))
  }

  /** A batch takes a name exactly if it is asked for and the list has one definition of it, which passes the scan
      of descriptions. */
  lemma TakesIff(p: Policy, pins: map<Text, Pin>, tools: seq<ToolDefinition>, names: seq<Text>, name: Text)
    ensures Takes(p, pins, tools, names, name) <==> exists d :: Taken(p, tools, names, name, d)
    ensures Takes(p, pins, tools, names, name) ==> OnlyOne(tools, name, Matches(tools, name)[0])
  {
    OutcomeIs(p, pins, tools, name);
    if d :| Taken(p, tools, names, name, d) {
      assert Pinnable(p, tools, name, d);
    }
    if d :| name in names && Pinnable(p, tools, name, d) {
      assert Taken(p, tools, names, name, d);
    }
  }

  /** Each distinct name gets one outcome. A name is approved, updated or unchanged exactly if the list has one
      definition of it, which passes the scan of descriptions; that definition verifies afterwards, and its pin is
      in the approver's name. Every other name keeps its old pin. */
  lemma ApprovalBatch(p: Policy, pins: map<Text, Pin>, tools: seq<ToolDefinition>, requested: Option<seq<Text>>,
      approver: Text, wall: real, name: Text)
    ensures
      var names := Wanted(requested, tools);
      var after := PinsAfter(p, pins, tools, names, approver, wall);
      && Distinct(names)
      && InOrder(names, if requested.Some? then requested.value else NamesOf(tools))
      && (name in names <==> if requested.Some? then name in requested.value else Matches(tools, name) != [])
      && (forall d :: Taken(p, tools, names, name, d) ==>
            && Accepted(OutcomeOf(p, pins, tools, name).status)
            && name in after && after[name] == Pin(Fingerprint(d), wall, approver))
      && ((forall d :: !Taken(p, tools, names, name, d)) ==>
            && (name in names ==> !Accepted(OutcomeOf(p, pins, tools, name).status))
            && (name in after <==> name in pins) && (name in pins ==> after[name] == pins[name]))
  {
    var names := Wanted(requested, tools);
    NamedIffMatched(tools, name);
    PinsPointwise(p, pins, tools, names, approver, wall, name);
    TakesIff(p, pins, tools, names, name);
    MatchOrNot(tools, name);
  }

  lemma TakenVerifies(p: Policy, pins: map<Text, Pin>, tools: seq<ToolDefinition>, names: seq<Text>, approver: Text,
      wall: real, name: Text)
    requires Distinct(names)
    ensures
      var after := PinsAfter(p, pins, tools, names, approver, wall);
      if Takes(p, pins, tools, names, name)
      then && |Matches(tools, name)| == 1 && Verify(after, Matches(tools, name)[0]) == OkIntegrity
           && name in after && after[name].approvedBy == approver
      else (name in after <==> name in pins) && (name in pins ==> after[name] == pins[name])
  {
    PinsPointwise(p, pins, tools, names, approver, wall, name);
    MatchesAreNamed(tools, name);
  }

  /** What the reported status says, in terms of the pins before and after. */
  lemma StatusIsTold(p: Policy, pins: map<Text, Pin>, tools: seq<ToolDefinition>, names: seq<Text>, approver: Text,
      wall: real, name: Text)
    requires Distinct(names) && name in names
    ensures
      var after, status := PinsAfter(p, pins, tools, names, approver, wall), OutcomeOf(p, pins, tools, name).status;
      && (status == NotFound <==> forall i :: 0 <= i < |tools| ==> tools[i].name != name)
      && (status == Approved <==> name !in pins && name in after)
      && (status == Updated <==> name in pins && name in after && after[name].fingerprint != pins[name].fingerprint)
      && (status == Unchanged ==> name in pins && name in after && after[name].fingerprint == pins[name].fingerprint)
  {
    PinsPointwise(p, pins, tools, names, approver, wall, name);
    MatchesAreNamed(tools, name);
    forall i | 0 <= i < |tools| && tools[i].name == name ensures Matches(tools, name) != [] {
      MatchIsOnly(tools, name, i);
    }
    if Matches(tools, name) != [] {
      assert Matches(tools, name)[0] in tools;
    }
  }

  /** A batch attempts one audit record a distinct name, by its approver, with the time and the risk of the name:
      ALLOW exactly if the name is taken. */
  lemma ApprovalIsAudited(p: Policy, core: Core, approver: Auth.UserSession, names: seq<Text>,
      tools: seq<ToolDefinition>, wall: real, i: nat)
    requires i < |names|
    ensures
      var after := ApproveBatch(p, core, approver, names, tools, wall);
      var n, m := |core.attempts|, |core.tables.audit|;
      && |after.attempts| == n + |names| && after.attempts[..n] == core.attempts
      && |after.tables.audit| == m + |names| && after.tables.audit[..m] == core.tables.audit
      && after.tables.audit[m + i] == after.attempts[n + i]
      && var row := after.attempts[n + i];
      var taken := exists d :: Taken(p, tools, names, names[i], d);
      row == AuditRow(wall, Some(approver.userId), Some(approver.sessionRef), Some(approver.role), names[i],
                      if ValidToolName(names[i]) then Some(Risk.Classify(p.toolRisk, names[i])) else None,
                      if taken then ALLOW else DENY, Approval)
  {
    TakesIff(p, core.tables.pins, tools, names, names[i]);
    var rows := ApprovalRows(p, approver, Outcomes(p, core.tables.pins, tools, names), wall);
    assert (core.attempts + rows)[|core.attempts| + i] == rows[i];
    assert (core.tables.audit + rows)[|core.tables.audit| + i] == rows[i];
  }

  /** The approver gets one outcome a name, in order, or nothing of a batch that raised. */
  lemma ResultIs(p: Policy, pins: map<Text, Pin>, tools: seq<ToolDefinition>, names: seq<Text>,
      fault: Option<ApprovalFault>)
    ensures var r := ResultOf(p, pins, tools, names, fault);
            if fault.Some? && fault.value.at < |names| then r == Raised
            else && r.Done? && |r.outcomes| == |names|
                 && forall i :: 0 <= i < |names| ==> r.outcomes[i] == OutcomeOf(p, pins, tools, names[i])
  {
  }

  /** The stored audit rows grew, and none of the new ones is about this tool. */
  ghost predicate NoNewRowFor(before: seq<AuditRow>, after: seq<AuditRow>, tool: Text) {
    |before| <= |after| && after[..|before|] == before && forall i :: |before| <= i < |after| ==> after[i].tool != tool
  }

  lemma OtherRowsOnly(before: seq<AuditRow>, rows: seq<AuditRow>, tool: Text)
    requires forall i :: 0 <= i < |rows| ==> rows[i].tool != tool
    ensures NoNewRowFor(before, before + rows, tool)
  {
    forall i | |before| <= i < |before + rows| ensures (before + rows)[i].tool != tool {
      assert (before + rows)[i] == rows[i - |before|];
    }
  }

  lemma RowsAreNamed(p: Policy, pins: map<Text, Pin>, approver: Auth.UserSession, names: seq<Text>,
      tools: seq<ToolDefinition>, wall: real, name: Text)
    requires name !in names
    ensures var rows := ApprovalRows(p, approver, Outcomes(p, pins, tools, names), wall);
            forall i :: 0 <= i < |rows| ==> rows[i].tool != name
  {
    var rows := ApprovalRows(p, approver, Outcomes(p, pins, tools, names), wall);
    forall i | 0 <= i < |rows| ensures rows[i].tool != name {
      assert rows[i].tool == names[i];
    }
  }

  /** Nothing guards the audit call of an approval: if it raises, the name it was for is pinned, verifies
      from then on, and no stored record says so. */
  lemma UnauditedPin(p: Policy, core: Core, approver: Auth.UserSession, names: seq<Text>, tools: seq<ToolDefinition>,
      wall: real, k: nat)
    requires Distinct(names) && k < |names| && Takes(p, core.tables.pins, tools, names, names[k])
    ensures
      var after := ApprovalOf(p, core, approver, names, tools, wall, Some(ApprovalFault(k, AtRecording)));
      && |Matches(tools, names[k])| == 1 && Verify(after.tables.pins, Matches(tools, names[k])[0]) == OkIntegrity
      && NoNewRowFor(core.tables.audit, after.tables.audit, names[k])
  {
    var rows := ApprovalRows(p, approver, Outcomes(p, core.tables.pins, tools, names[..k]), wall);
    RowsAreNamed(p, core.tables.pins, approver, names[..k], tools, wall, names[k]);
    OtherRowsOnly(core.tables.audit, rows, names[k]);
    PinnedVerifies(p, core, approver, names, tools, wall, k);
  }

  /** The pins a raise in the audit call of the k-th name leaves are those of a batch that ends with that name. */
  lemma PinsReached(p: Policy, core: Core, approver: Auth.UserSession, names: seq<Text>, tools: seq<ToolDefinition>,
      wall: real, k: nat)
    requires Distinct(names) && k < |names|
    ensures ApprovalOf(p, core, approver, names, tools, wall, Some(ApprovalFault(k, AtRecording))).tables.pins
            == PinsAfter(p, core.tables.pins, tools, names[..k + 1], approver.userId, wall)
  {
    var stored := CountedReaches(p, core, approver, names, tools, wall, Some(ApprovalFault(k, AtRecording)));
  }

  lemma PinnedVerifies(p: Policy, core: Core, approver: Auth.UserSession, names: seq<Text>, tools: seq<ToolDefinition>,
      wall: real, k: nat)
    requires Distinct(names) && k < |names| && Takes(p, core.tables.pins, tools, names, names[k])
    ensures
      var after := ApprovalOf(p, core, approver, names, tools, wall, Some(ApprovalFault(k, AtRecording)));
      |Matches(tools, names[k])| == 1 && Verify(after.tables.pins, Matches(tools, names[k])[0]) == OkIntegrity
  {
    PinsReached(p, core, approver, names, tools, wall, k);
    var reached := names[..k + 1];
    assert reached[k] == names[k] && Distinct(reached);
    TakenVerifies(p, core.tables.pins, tools, reached, approver.userId, wall, names[k]);
  }

  lemma {:induction false} NamedIffMatched(tools: seq<ToolDefinition>, name: Text)
    ensures name in NamesOf(tools) <==> Matches(tools, name) != []
  {
    if tools != [] {
      var most := tools[..|tools| - 1];
      NamedIffMatched(most, name);
      assert NamesOf(tools) == NamesOf(most) + [tools[|tools| - 1].name];
    }
  }

  /** Repeating a batch on the same list leaves every fingerprint as it is, reports the accepted names
      unchanged and the others as before. */
  lemma {:induction false} ApprovalIsIdempotent(p: Policy, pins: map<Text, Pin>, tools: seq<ToolDefinition>,
      names: seq<Text>,
                             first: Text, wall: real, second: Text, wall': real, name: Text)
    requires Distinct(names)
    ensures
      var once := PinsAfter(p, pins, tools, names, first, wall);
      var twice := PinsAfter(p, once, tools, names, second, wall');
      && (name in twice <==> name in once)
      && (name in once ==> twice[name].fingerprint == once[name].fingerprint)
      && (name in names ==> OutcomeOf(p, once, tools, name).status
                            == if Takes(p, pins, tools, names, name) then Unchanged
                               else OutcomeOf(p, pins, tools, name).status)
  {
    var once := PinsAfter(p, pins, tools, names, first, wall);
    PinsPointwise(p, pins, tools, names, first, wall, name);
    PinsPointwise(p, once, tools, names, second, wall', name);
  }

  // ----- discovery -----------------------------------------------------------------------------

  /** Some definition of the list is visible and has this entry. */
  ghost predicate HasEntry(p: Policy, pins: map<Text, Pin>, role: Text, tools: seq<ToolDefinition>, info: ToolInfo) {
    exists i :: 0 <= i < |tools| && Visible(p, pins, role, tools[i]) && info == InfoOf(p, pins, tools[i])
  }

  lemma HasEntryNext(p: Policy, pins: map<Text, Pin>, role: Text, most: seq<ToolDefinition>, d: ToolDefinition,
      info: ToolInfo)
    ensures HasEntry(p, pins, role, most + [d], info)
            <==> HasEntry(p, pins, role, most, info) || (Visible(p, pins, role, d) && info == InfoOf(p, pins, d))
  {
    var tools := most + [d];
    if i :| 0 <= i < |most| && Visible(p, pins, role, most[i]) && info == InfoOf(p, pins, most[i]) {
      assert tools[i] == most[i];
    }
    if i :| 0 <= i < |tools| && Visible(p, pins, role, tools[i]) && info == InfoOf(p, pins, tools[i]) {
      assert i < |most| ==> most[i] == tools[i];
    }
    assert tools[|most|] == d;
  }

  /** The listing shows the entries of exactly the visible tools. */
  lemma {:induction false} ListedIff(p: Policy, pins: map<Text, Pin>, role: Text, tools: seq<ToolDefinition>,
      info: ToolInfo)
    ensures info in Listing(p, pins, role, tools) <==> HasEntry(p, pins, role, tools, info)
  {
    if tools != [] {
      var most, d := tools[..|tools| - 1], tools[|tools| - 1];
      ListedIff(p, pins, role, most, info);
      HasEntryNext(p, pins, role, most, d, info);
      assert tools == most + [d];
    }
  }

  /** The entry of a definition: its name, description and schema as fetched, the risk of its name, and how its
      fingerprint compares with the pin. */
  ghost predicate EntryOf(p: Policy, pins: map<Text, Pin>, d: ToolDefinition, info: ToolInfo) {
    && info.name == d.name && info.description == d.description && info.inputSchema == d.inputSchema
    && info.risk == Risk.Classify(p.toolRisk, d.name)
    && info.integrity == if d.name !in pins then Unapproved
                         else if pins[d.name].fingerprint == Fingerprint(d) then OkIntegrity else Changed
  }

  /** The role may manage, or it may use the tool and the definition has the approved fingerprint. */
  ghost predicate Shown(p: Policy, pins: map<Text, Pin>, role: Text, d: ToolDefinition) {
    && role in p.roles
    && (|| p.roles[role].canManage
        || (&& d.name in pins && pins[d.name].fingerprint == Fingerprint(d)
            && d.name in p.roles[role].allowedTools
            && Risk.Rank(Risk.Classify(p.toolRisk, d.name)) <= Risk.Rank(p.roles[role].maxRisk)))
  }

  lemma ShownIffVisible(p: Policy, pins: map<Text, Pin>, role: Text, d: ToolDefinition)
    ensures Shown(p, pins, role, d) <==> Visible(p, pins, role, d)
    ensures EntryOf(p, pins, d, InfoOf(p, pins, d))
  {
    VerifyIs(pins, d);
  }

  /** The listing shows exactly the entries of the fetched definitions the role may see. */
  lemma ListingIsExact(p: Policy, pins: map<Text, Pin>, role: Text, tools: seq<ToolDefinition>, info: ToolInfo)
    ensures info in Listing(p, pins, role, tools)
            <==> exists i :: 0 <= i < |tools| && Shown(p, pins, role, tools[i]) && EntryOf(p, pins, tools[i], info)
  {
    ListedIff(p, pins, role, tools, info);
    forall i | 0 <= i < |tools|
      ensures Shown(p, pins, role, tools[i]) <==> Visible(p, pins, role, tools[i])
      ensures EntryOf(p, pins, tools[i], info) <==> info == InfoOf(p, pins, tools[i])
    {
      ShownIffVisible(p, pins, role, tools[i]);
    }
  }

  /** Entry by entry and in order, the listing is that of the fetched definitions the role may see. */
  lemma {:induction false} ListingIsInOrder(p: Policy, pins: map<Text, Pin>, role: Text, tools: seq<ToolDefinition>)
    ensures
      var infos, shown := Listing(p, pins, role, tools), Filter((d: ToolDefinition) => Shown(p, pins, role, d), tools);
      |infos| == |shown| && forall i :: 0 <= i < |infos| ==> EntryOf(p, pins, shown[i], infos[i])
  {
    if tools != [] {
      ListingIsInOrder(p, pins, role, tools[..|tools| - 1]);
      ShownIffVisible(p, pins, role, tools[|tools| - 1]);
    }
  }

  /** A caller who may manage sees every fetched definition, duplicates included, in order. */
  lemma {:induction false} ManagersSeeAll(p: Policy, pins: map<Text, Pin>, role: Text, tools: seq<ToolDefinition>)
    requires role in p.roles && p.roles[role].canManage
    ensures |Listing(p, pins, role, tools)| == |tools|
    ensures forall i :: 0 <= i < |tools| ==> EntryOf(p, pins, tools[i], Listing(p, pins, role, tools)[i])
  {
    if tools != [] {
      ManagersSeeAll(p, pins, role, tools[..|tools| - 1]);
      ShownIffVisible(p, pins, role, tools[|tools| - 1]);
    }
  }

  /** For a caller who may not manage, and a tool the list has once, listing and calling agree: an entry of the
      tool is shown exactly if the role may use it and a call would not be stopped for its integrity. */
  lemma ListingAgreesWithCalls(p: Policy, core: Core, role: Text, req: Request, ctx: Ctx, tools: seq<ToolDefinition>,
      d: ToolDefinition, wall: real, now: real)
    requires !(role in p.roles && p.roles[role].canManage) && OnlyOne(tools, req.tool, d)
    ensures
      var answer := AfterTools(p, core, req, ctx, Tools(tools), wall, now, {}).1;
      (exists info :: info in Listing(p, core.tables.pins, role, tools) && info.name == req.tool)
      <==> && role in p.roles && req.tool in p.roles[role].allowedTools
           && Risk.Rank(Risk.Classify(p.toolRisk, req.tool)) <= Risk.Rank(p.roles[role].maxRisk)
           && !(answer.Returned? && answer.result.stage == IntegrityStage)
  {
    var pins := core.tables.pins;
    CallAnswers(p, core, req, ctx, Tools(tools), wall, now, {});
    MatchOrNot(tools, req.tool);
    OnlyMatch(tools, req.tool, d);
    ListedIffShown(p, pins, role, tools, req.tool, d);
  }

  lemma ListedIffShown(p: Policy, pins: map<Text, Pin>, role: Text, tools: seq<ToolDefinition>, name: Text,
      d: ToolDefinition)
    requires OnlyOne(tools, name, d)
    ensures (exists info :: info in Listing(p, pins, role, tools) && info.name == name) <==> Shown(p, pins, role, d)
  {
    if info :| info in Listing(p, pins, role, tools) && info.name == name {
      ListingIsExact(p, pins, role, tools, info);
    }
    if Shown(p, pins, role, d) {
      ShownIffVisible(p, pins, role, d);
      ListingIsExact(p, pins, role, tools, InfoOf(p, pins, d));
    }
  }

  lemma {:induction false} MatchIsOnly(tools: seq<ToolDefinition>, name: Text, i: nat)
    requires i < |tools| && tools[i].name == name
    ensures tools[i] in Matches(tools, name)
  {
    if i < |tools| - 1 {
      MatchIsOnly(tools[..|tools| - 1], name, i);
    }
  }

  // ----- what a refused caller is told -----------------------------------------------------------

  /** A denial for rate carries the time after which the limiter will let the user pass, if nobody
      of that user is let pass before. */
  lemma RateDenialTellsWhen(p: Policy, core: Core, req: Request, wall: real, now: real, later: real, faults: set<Site>)
    requires Limiting.Chronological(core.checks) && (core.checks != [] ==> Limiting.Last(core.checks).time <= now)
    requires var r := Entry(p, core, req, wall, now, faults).1;
             r.Returned? && r.result.stage == RateLimit && now <= later
    ensures
      var result := Entry(p, core, req, wall, now, faults).1.result;
      && result.userId.Some? && result.retryAfter.Some?
      && 0.0 < result.retryAfter.value <= p.quota.window
      && (RateAnswer(p, core, result.userId.value, later).Allowed? <==> now + result.retryAfter.value <= later)
  {
    EntryInOrder(p, core, req, wall, now, faults);
    var user := Auth.Validate(core.tables, req.sessionId, wall).value.userId;
    LimiterTheorems.FullWindow(p.quota, core.checks, user, now, later);
  }

  /** A denial by the breaker comes from asking it once, and carries its time to wait. */
  lemma BreakerRefused(p: Policy, core: Core, req: Request, ctx: Ctx, fetched: Fetched, wall: real, now: real,
      faults: set<Site>)
    requires var r := AfterTools(p, core, req, ctx, fetched, wall, now, faults).1;
             r.Returned? && r.result.stage == BreakerStage
    ensures
      var (after, r) := AfterTools(p, core, req, ctx, fetched, wall, now, faults);
      var (asked, granted) := Breaking.Allow(p.breaker, BreakerOf(core, req.tool), now);
      !granted && BreakerOf(after, req.tool) == asked
      && r.result.retryAfter == Some(Breaking.RetryAfter(p.breaker, asked, now))
  {
    CallInOrder(p, core, req, fetched, now, faults);
  }

  /** What a breaker that refuses says: it stays as it is, and an open one lets a call through exactly from the
      told time on. */
  lemma RefusalTellsWhen(cfg: Breaking.Config, b: Breaking.Breaker, now: real, later: real)
    requires !Breaking.Allow(cfg, b, now).1 && now <= later
    ensures
      var (asked, wait) := (Breaking.Allow(cfg, b, now).0, Breaking.RetryAfter(cfg, b, now));
      && asked == b && b.mode != Breaking.Closed
      && (b.mode == Breaking.Open ==> 0.0 < wait && (Breaking.Allow(cfg, b, later).1 <==> now + wait <= later))
      && (b.mode == Breaking.HalfOpen ==> wait == 0.0)
  {
  }

  /** A denial by an open breaker carries the time after which it will let a call through; a half-open
      one, which waits for its probe, says zero. */
  lemma BreakerDenialTellsWhen(p: Policy, core: Core, req: Request, ctx: Ctx, fetched: Fetched, wall: real, now: real,
      later: real, faults: set<Site>)
    requires var r := AfterTools(p, core, req, ctx, fetched, wall, now, faults).1;
             r.Returned? && r.result.stage == BreakerStage && now <= later
    ensures
      var (after, r) := AfterTools(p, core, req, ctx, fetched, wall, now, faults);
      var b := BreakerOf(core, req.tool);
      && r.result.retryAfter.Some? && BreakerOf(after, req.tool) == b && b.mode != Breaking.Closed
      && (b.mode == Breaking.Open ==>
            && 0.0 < r.result.retryAfter.value
            && (Breaking.Allow(p.breaker, b, later).1 <==> now + r.result.retryAfter.value <= later))
      && (b.mode == Breaking.HalfOpen ==> r.result.retryAfter.value == 0.0)
  {
    BreakerRefused(p, core, req, ctx, fetched, wall, now, faults);
    RefusalTellsWhen(p.breaker, BreakerOf(core, req.tool), now, later);
  }

  // ----- audit failures ------------------------------------------------------------------------

  ghost predicate SameButAudit(a: (Core, Progress), b: (Core, Progress)) {
    && a.1 == b.1 && a.0.checks == b.0.checks && a.0.breakers == b.0.breakers && a.0.attempts == b.0.attempts
    && a.0.tables == b.0.tables.(audit := a.0.tables.audit)
  }

  /** If the audit store fails, every segment ends as it would have, and only the audit table shows it. */
  lemma AuditFailureIsHarmless(p: Policy, core: Core, req: Request, ctx: Ctx, fetched: Fetched, reply: Reply,
      wall: real, now: real, faults: set<Site>)
    ensures SameButAudit(Entry(p, core, req, wall, now, faults),
                         Entry(p, core, req, wall, now, faults - {AtAudit}))
    ensures SameButAudit(AfterTools(p, core, req, ctx, fetched, wall, now, faults),
                         AfterTools(p, core, req, ctx, fetched, wall, now, faults - {AtAudit}))
    ensures SameButAudit(AfterReply(p, core, req, ctx, reply, wall, now, faults),
                         AfterReply(p, core, req, ctx, reply, wall, now, faults - {AtAudit}))
  {
    EntryWithoutAudit(p, core, req, wall, now, faults);
    CallWithoutAudit(p, core, req, ctx, fetched, wall, now, faults);
    ReplyWithoutAudit(p, core, req, ctx, reply, wall, now, faults);
  }

  lemma EntryWithoutAudit(p: Policy, core: Core, req: Request, wall: real, now: real, faults: set<Site>)
    ensures SameButAudit(Entry(p, core, req, wall, now, faults),
                         Entry(p, core, req, wall, now, faults - {AtAudit}))
  {
    var gs := EntryGuards(p, core, req, wall, now, faults);
    assert gs == EntryGuards(p, core, req, wall, now, faults - {AtAudit});
    var k := FirstStop(gs);
    assert Counted(core, req, wall, now, k, faults) == Counted(core, req, wall, now, k, faults - {AtAudit});
  }

  lemma CallGuardsIgnoreAudit(p: Policy, core: Core, req: Request, fetched: Fetched, now: real, faults: set<Site>)
    requires !fetched.FetchCancelled?
    ensures CallGuards(p, core, req, fetched, now, faults) == CallGuards(p, core, req, fetched, now, faults - {AtAudit})
  {
  }

  lemma CallWithoutAudit(p: Policy, core: Core, req: Request, ctx: Ctx, fetched: Fetched, wall: real, now: real,
      faults: set<Site>)
    ensures SameButAudit(AfterTools(p, core, req, ctx, fetched, wall, now, faults),
                         AfterTools(p, core, req, ctx, fetched, wall, now, faults - {AtAudit}))
  {
    if !fetched.FetchCancelled? {
      CallGuardsIgnoreAudit(p, core, req, fetched, now, faults);
    }
  }

  lemma ReplyWithoutAudit(p: Policy, core: Core, req: Request, ctx: Ctx, reply: Reply, wall: real, now: real,
      faults: set<Site>)
    ensures SameButAudit(AfterReply(p, core, req, ctx, reply, wall, now, faults),
                         AfterReply(p, core, req, ctx, reply, wall, now, faults - {AtAudit}))
  {
    assert ReplyGuards(p, reply, faults) == ReplyGuards(p, reply, faults - {AtAudit});
  }
}
