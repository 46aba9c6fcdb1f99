/** What every step of a run keeps for approvals and the calls that rely on them. */
module RunPins {
  import opened Basics
  import opened Storage
  import opened Integrity
  import Scanning
  import opened Gateway
  import opened GatewayRuns
  import opened GatewayAnswers
  import GatewayTheorems
  import Auth = Authentication

  datatype Endorsement = Endorsement(defn: ToolDefinition, approver: Auth.UserSession)

  function ApprovalsOf(name: Text): Event -> Option<Endorsement> {
    (e: Event) => if e.Pinned? && e.tool == name then Some(Endorsement(e.defn, e.approver)) else None
  }

  /** An approver who may manage pinned a definition of this name that passed the scan. */
  ghost predicate Endorsed(p: Policy, name: Text, a: Endorsement) {
    && a.approver.role in p.roles && p.roles[a.approver.role].canManage && a.defn.name == name
    && Scanning.Passes(p.scan, Scanning.Description, DefinitionTexts(a.defn), DefinitionHeight(a.defn))
  }

  /** The pin of a name is what the last approval of it wrote. */
  ghost predicate PinTraced(p: Policy, pins: map<Text, Pin>, approvals: seq<Endorsement>, name: Text) {
    && (name in pins <==> approvals != [])
    && (approvals != [] ==>
          var a := approvals[|approvals| - 1];
          && Endorsed(p, name, a)
          && name in pins && pins[name].fingerprint == Fingerprint(a.defn)
          && pins[name].approvedBy == a.approver.userId)
  }

  ghost predicate PinTracedIn(p: Policy, w: World, name: Text) {
    PinTraced(p, w.core.tables.pins, Pick(w.log, ApprovalsOf(name)), name)
  }

  ghost predicate NoPins(es: seq<Event>) {
    forall i :: 0 <= i < |es| ==> !es[i].Pinned?
  }

  lemma ApprovalsOff(log: seq<Event>, es: seq<Event>, name: Text)
    requires NoPins(es)
    ensures Pick(log + es, ApprovalsOf(name)) == Pick(log, ApprovalsOf(name))
  {
    PickNothing(log, es, ApprovalsOf(name));
  }

  lemma ApprovalsNext(es: seq<Event>, taken: bool, last: Text, d: ToolDefinition, approver: Auth.UserSession,
      name: Text)
    ensures Pick(es + (if taken then [Pinned(last, d, approver)] else []), ApprovalsOf(name))
            == Pick(es, ApprovalsOf(name)) + (if taken && last == name then [Endorsement(d, approver)] else [])
  {
    if taken {
      PickNext(es, Pinned(last, d, approver), ApprovalsOf(name));
    } else {
      assert es + [] == es;
    }
  }

  ghost predicate Records(p: Policy, pins: map<Text, Pin>, tools: seq<ToolDefinition>, approver: Auth.UserSession,
      name: Text, named: bool, approvals: seq<Endorsement>) {
    approvals == if named && Accepted(OutcomeOf(p, pins, tools, name).status)
                 then [Endorsement(Matches(tools, name)[0], approver)] else []
  }

  /** A batch records one approval of a name it takes and none of any other. */
  lemma {:induction false} BatchApprovals(p: Policy, pins: map<Text, Pin>, tools: seq<ToolDefinition>,
      names: seq<Text>, approver: Auth.UserSession, name: Text)
    requires Distinct(names)
    ensures Records(p, pins, tools, approver, name, name in names,
                    Pick(PinEvents(p, pins, tools, names, approver), ApprovalsOf(name)))
  {
    if names != [] {
      var most, last := names[..|names| - 1], names[|names| - 1];
      var taken := Accepted(OutcomeOf(p, pins, tools, last).status);
      BatchApprovals(p, pins, tools, most, approver, name);
      ApprovalsNext(PinEvents(p, pins, tools, most, approver), taken,
                    last, if taken then Matches(tools, last)[0] else ToolDefinition([], [], [], [], []),
                    approver, name);
      assert name in names <==> name in most || name == last;
      assert last !in most;
    }
  }

  lemma PinTracedBatch(p: Policy, pins: map<Text, Pin>, approvals: seq<Endorsement>, approver: Auth.UserSession,
      names: seq<Text>, tools: seq<ToolDefinition>, wall: real, name: Text, more: seq<Endorsement>)
    requires PinTraced(p, pins, approvals, name) && Distinct(names) && CanManage(p, approver.role)
    requires Records(p, pins, tools, approver, name, name in names, more)
    ensures PinTraced(p, PinsAfter(p, pins, tools, names, approver.userId, wall), approvals + more, name)
  {
    GatewayTheorems.PinsPointwise(p, pins, tools, names, approver.userId, wall, name);
    if more == [] {
      assert approvals + more == approvals;
    } else {
      MatchesAreNamed(tools, name);
      ScanCleanIff(p.scan, Matches(tools, name)[0]);
    }
  }

  lemma PinTracedStep(p: Policy, w: World, after: World, s: Shape, name: Text)
    requires PinTracedIn(p, w, name)
    requires LogMoves(p, w, after, s) && PinsMove(p, w.core.tables.pins, after.core.tables.pins, s)
    ensures PinTracedIn(p, after, name)
  {
    var pins := w.core.tables.pins;
    var first := FirstEvents(p, pins, after.now, s);
    EventKinds(p, pins, after.now, s);
    ApprovalsOff(w.log + first, LastEvents(s), name);
    if s.Approves? {
      BatchApprovals(p, pins, s.tools, s.names, s.approver, name);
      PickConcat(w.log, first, ApprovalsOf(name));
      var approvals, more := Pick(w.log, ApprovalsOf(name)), Pick(first, ApprovalsOf(name));
      PinTracedBatch(p, pins, approvals, s.approver, s.names, s.tools, s.wall, name, more);
    } else {
      ApprovalsOff(w.log, first, name);
    }
  }

  // ----- every call is vetted --------------------------------------------------------------------------

  /** The live definition has the fingerprint of the approved one: they are the same once object keys are
      sorted and split surrogate pairs joined. Every scanner judges them alike exactly if their texts are the
      same as they stand, and then the live one passes the scan, although nobody scanned it. Without split
      pairs that is so, and the live one differs at most in key order. */
  ghost predicate Trusted(p: Policy, live: ToolDefinition, approved: ToolDefinition) {
    && Fingerprint(live) == Fingerprint(approved) && Standard(live) == Standard(approved)
    && (SameVerdicts(live, approved) <==> Scanning.SameTexts(DefinitionTexts(live), DefinitionTexts(approved)))
    && (SameVerdicts(live, approved) ==>
          Scanning.Passes(p.scan, Scanning.Description, DefinitionTexts(live), DefinitionHeight(live)))
    && (WellFormedDefinition(live) && WellFormedDefinition(approved)
        ==> SameDefinition(live, approved) && SameVerdicts(live, approved))
  }

  /** The last of these approvals, of someone who may manage, makes the definition trusted. */
  ghost predicate TrustedBy(p: Policy, approvals: seq<Endorsement>, d: ToolDefinition) {
    && approvals != []
    && Endorsed(p, d.name, approvals[|approvals| - 1]) && Trusted(p, d, approvals[|approvals| - 1].defn)
  }

  /** The call is for the only definition of its name in the list its request fetched, and that
      definition can be trusted as the one approved last before the call. */
  ghost predicate Vetted(p: Policy, before: seq<Event>, call: Event)
    requires call.Called?
  {
    exists live :: OnlyOne(call.tools, call.tool, live) && TrustedBy(p, Pick(before, ApprovalsOf(call.tool)), live)
  }

  /** Every event is in order with respect to what came before it. */
  ghost predicate Each(log: seq<Event>, good: (seq<Event>, Event) -> bool) {
    log != [] ==> Each(log[..|log| - 1], good) && good(log[..|log| - 1], log[|log| - 1])
  }

  lemma EachNext(log: seq<Event>, e: Event, good: (seq<Event>, Event) -> bool)
    requires Each(log, good) && good(log, e)
    ensures Each(log + [e], good)
  {
    assert (log + [e])[..|log|] == log;
  }

  lemma {:induction false} EachAt(log: seq<Event>, i: nat, good: (seq<Event>, Event) -> bool)
    requires Each(log, good) && i < |log|
    ensures good(log[..i], log[i])
    decreases |log|
  {
    if i < |log| - 1 {
      var before := log[..|log| - 1];
      EachAt(before, i, good);
      assert before[..i] == log[..i];
    }
  }

  ghost function VettedBy(p: Policy): (seq<Event>, Event) -> bool {
    (before: seq<Event>, e: Event) => e.Called? ==> Vetted(p, before, e)
  }

  ghost predicate AllVetted(p: Policy, log: seq<Event>) { Each(log, VettedBy(p)) }

  ghost predicate NoCalls(es: seq<Event>) {
    forall i :: 0 <= i < |es| ==> !es[i].Called?
  }

  lemma {:induction false} AllVettedOff(p: Policy, log: seq<Event>, es: seq<Event>)
    requires AllVetted(p, log) && NoCalls(es)
    ensures AllVetted(p, log + es)
    decreases |es|
  {
    if es == [] {
      assert log + es == log;
    } else {
      var most, e := es[..|es| - 1], es[|es| - 1];
      assert !es[|es| - 1].Called?;
      AllVettedOff(p, log, most);
      EachNext(log + most, e, VettedBy(p));
      assert log + es == (log + most) + [e];
    }
  }

  /** A definition that verifies against a traced pin can be trusted. */
  lemma {:induction false} VerifiedIsTrusted(p: Policy, pins: map<Text, Pin>, approvals: seq<Endorsement>,
      live: ToolDefinition, name: Text)
    requires PinTraced(p, pins, approvals, name) && live.name == name && Verify(pins, live).OkIntegrity?
    ensures TrustedBy(p, approvals, live)
  {
    var a := approvals[|approvals| - 1];
    FingerprintIsTrust(p, live, a.defn);
  }

  lemma FingerprintIsTrust(p: Policy, live: ToolDefinition, approved: ToolDefinition)
    requires Fingerprint(live) == Fingerprint(approved)
    requires Scanning.Passes(p.scan, Scanning.Description, DefinitionTexts(approved), DefinitionHeight(approved))
    ensures Trusted(p, live, approved)
  {
    FingerprintIsExact(live, approved);
    FingerprintCarriesVerdictIff(live, approved);
    if SameVerdicts(live, approved) {
      assert PassesAsDescription(p.scan, live) <==> PassesAsDescription(p.scan, approved);
    }
    if WellFormedDefinition(live) && WellFormedDefinition(approved) {
      FingerprintIgnoresOnlyOrder(live, approved);
      OrderKeepsVerdicts(live, approved);
    }
  }

  lemma OrderKeepsVerdicts(d: ToolDefinition, e: ToolDefinition)
    requires WellFormedDefinition(d) && WellFormedDefinition(e) && Fingerprint(d) == Fingerprint(e)
    ensures SameVerdicts(d, e)
  {
    forall limits ensures PassesAsDescription(limits, d) <==> PassesAsDescription(limits, e) {
      FingerprintCarriesVerdict(limits, d, e);
    }
  }

  /** The name whose pin the step relies on. */
  function NameAt(s: Shape): Text { if s.Calls? then s.tool else [] }

  /** The call of a step that calls is vetted, whatever else came just before it. */
  lemma CallIsVetted(p: Policy, w: World, s: Shape, first: seq<Event>)
    requires s.Calls? && PinTracedIn(p, w, s.tool) && NoPins(first) && |Matches(s.tools, s.tool)| == 1
    requires Verify(w.core.tables.pins, Matches(s.tools, s.tool)[0]).OkIntegrity?
    ensures Vetted(p, w.log + first, Called(s.rid, s.tool, s.tools, s.user, s.rateTime))
  {
    var live := Matches(s.tools, s.tool)[0];
    MatchOrNot(s.tools, s.tool);
    VerifiedIsTrusted(p, w.core.tables.pins, Pick(w.log, ApprovalsOf(s.tool)), live, s.tool);
    ApprovalsOff(w.log, first, s.tool);
  }

  lemma {:induction false} AllVettedStep(p: Policy, w: World, after: World, s: Shape)
    requires AllVetted(p, w.log) && PinTracedIn(p, w, NameAt(s))
    requires LogMoves(p, w, after, s) && PinsMove(p, w.core.tables.pins, after.core.tables.pins, s)
    ensures AllVetted(p, after.log)
  {
    var first := FirstEvents(p, w.core.tables.pins, after.now, s);
    EventKinds(p, w.core.tables.pins, after.now, s);
    AllVettedOff(p, w.log, first);
    if s.Calls? {
      CallIsVetted(p, w, s, first);
      EachNext(w.log + first, Called(s.rid, s.tool, s.tools, s.user, s.rateTime), VettedBy(p));
    } else {
      AllVettedOff(p, w.log + first, LastEvents(s));
    }
  }
}
