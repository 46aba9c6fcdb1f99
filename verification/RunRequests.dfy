/** The steps of one request within a run: which of its actions ran which segment, and what came of it. */
module RunRequests {
  import opened Integrity
  import opened Gateway
  import opened GatewayRuns

  // ----- segments of a request ---------------------------------------------------------------------

  /** The `i`-th action is this request's arrival, and its first segment ends like this. */
  ghost predicate EntersAt(p: Policy, r: Behaviour, i: int, rid: nat, req: Request, outcome: Progress) {
    && 0 <= i < |r.actions| < |r.worlds|
    && var a := r.actions[i];
    && Enabled(r.worlds[i], a) && a.Arrive? && a.rid == rid && a.req == req
    && Entry(p, r.worlds[i].core, req, a.wall, a.now, a.faults).1 == outcome
  }

  /** The `j`-th action delivers this request's tool list, and its second segment ends like this. */
  ghost predicate FetchesAt(p: Policy, r: Behaviour, j: int, rid: nat, req: Request, ctx: Ctx, outcome: Progress) {
    && 0 <= j < |r.actions| < |r.worlds|
    && var a := r.actions[j];
    && Enabled(r.worlds[j], a) && a.GetTools? && a.rid == rid
    && AfterTools(p, r.worlds[j].core, req, ctx, a.fetched, a.wall, a.now, a.faults).1 == outcome
  }

  /** The `k`-th action delivers this request's reply, and its third segment ends like this. */
  ghost predicate RepliesAt(p: Policy, r: Behaviour, k: int, rid: nat, req: Request, ctx: Ctx, outcome: Progress) {
    && 0 <= k < |r.actions| < |r.worlds|
    && var a := r.actions[k];
    && Enabled(r.worlds[k], a) && a.GetReply? && a.rid == rid
    && AfterReply(p, r.worlds[k].core, req, ctx, a.reply, a.wall, a.now, a.faults).1 == outcome
  }

  /** The state and the clocks the `i`-th action starts from. */
  function MomentAt(r: Behaviour, i: int): Moment
    requires 0 <= i < |r.actions| < |r.worlds| && (r.actions[i].Arrive? || r.actions[i].GetTools?)
  {
    Moment(r.worlds[i].core, r.actions[i].wall, r.actions[i].now)
  }

  ghost predicate DidBegin(p: Policy, r: Behaviour, i: int, rid: nat, req: Request, ctx: Ctx, began: Moment) {
    EntersAt(p, r, i, rid, req, AwaitingTools(ctx)) && began == MomentAt(r, i)
  }

  ghost predicate DidCall(p: Policy, r: Behaviour, j: int, rid: nat, req: Request, ctx: Ctx, fetched: Moment,
      tools: seq<ToolDefinition>) {
    && FetchesAt(p, r, j, rid, req, ctx, AwaitingReply(ctx)) && fetched == MomentAt(r, j)
    && r.actions[j].fetched == Tools(tools)
  }

  ghost predicate DidReply(p: Policy, r: Behaviour, k: int, rid: nat, req: Request, ctx: Ctx, outcome: Progress,
      began: Moment, fetched: Moment, tools: seq<ToolDefinition>, trail: Trail)
  {
    && RepliesAt(p, r, k, rid, req, ctx, outcome)
    && trail == (if outcome.Returned? then TrailOf(r.actions[k].reply, outcome.result, began, fetched, tools)
                 else NoTrail)
  }

  // ----- how a request got where it is ---------------------------------------------------------------

  ghost predicate HasBegun(p: Policy, r: Behaviour, n: int, rid: nat, req: Request, ctx: Ctx, began: Moment) {
    exists i :: i < n && DidBegin(p, r, i, rid, req, ctx, began)
  }

  ghost predicate HasCalled(p: Policy, r: Behaviour, n: int, rid: nat, req: Request, ctx: Ctx, began: Moment,
      fetched: Moment, tools: seq<ToolDefinition>)
  {
    exists j :: j < n && HasBegun(p, r, j, rid, req, ctx, began) && DidCall(p, r, j, rid, req, ctx, fetched, tools)
  }

  /** A request ends in one of its three segments. */
  ghost predicate HasEnded(p: Policy, r: Behaviour, n: int, rid: nat, req: Request, outcome: Progress, trail: Trail) {
    || (trail == NoTrail && exists i :: i < n && EntersAt(p, r, i, rid, req, outcome))
    || (trail == NoTrail && exists j, ctx, began ::
          j < n && HasBegun(p, r, j, rid, req, ctx, began) && FetchesAt(p, r, j, rid, req, ctx, outcome))
    || (exists k, ctx, began, fetched, tools ::
          && k < n && HasCalled(p, r, k, rid, req, ctx, began, fetched, tools)
          && DidReply(p, r, k, rid, req, ctx, outcome, began, fetched, tools, trail))
  }

  /** The phase a request is in comes from its own actions among the first `n`, each segment run on the
      state the run was in, one after another. */
  ghost predicate Went(p: Policy, r: Behaviour, n: int, rid: nat, phase: Phase) {
    match phase
    case Fetching(req, ctx, began) => HasBegun(p, r, n, rid, req, ctx, began)
    case Calling(req, ctx, began, fetched, tools) => HasCalled(p, r, n, rid, req, ctx, began, fetched, tools)
    case Finished(req, result, trail) => HasEnded(p, r, n, rid, req, Returned(result), trail)
    case Cancelled(req) => HasEnded(p, r, n, rid, req, Escaped, NoTrail)
  }

  // ----- every step keeps it ---------------------------------------------------------------------------

  /** Whose request an action is about. */
  predicate About(a: Action, rid: nat) { (a.Arrive? || a.GetTools? || a.GetReply?) && a.rid == rid }

  lemma OthersStay(p: Policy, w: World, a: Action, rid: nat)
    requires !(Enabled(w, a) && About(a, rid))
    ensures var after := Step(p, w, a);
            && (rid in after.requests <==> rid in w.requests)
            && (rid in w.requests ==> after.requests[rid] == w.requests[rid])
  {
  }

  lemma StillWent(p: Policy, r: Behaviour, n: int, rid: nat, phase: Phase)
    requires Went(p, r, n, rid, phase)
    ensures Went(p, r, n + 1, rid, phase)
  {
  }

  lemma ArrivalGoes(p: Policy, r: Behaviour, n: nat, rid: nat)
    requires n < |r.actions| < |r.worlds| && Enabled(r.worlds[n], r.actions[n])
    requires r.actions[n].Arrive? && r.actions[n].rid == rid
    ensures var after := Step(p, r.worlds[n], r.actions[n]);
            rid in after.requests ==> Went(p, r, n + 1, rid, after.requests[rid])
  {
    var a, w := r.actions[n], r.worlds[n];
    var outcome := Entry(p, w.core, a.req, a.wall, a.now, a.faults).1;
    assert EntersAt(p, r, n, rid, a.req, outcome);
    if outcome.AwaitingTools? {
      assert DidBegin(p, r, n, rid, a.req, outcome.ctx, MomentAt(r, n));
    }
  }

  lemma FetchGoes(p: Policy, r: Behaviour, n: nat, rid: nat)
    requires n < |r.actions| < |r.worlds| && Enabled(r.worlds[n], r.actions[n])
    requires r.actions[n].GetTools? && r.actions[n].rid == rid
    requires rid in r.worlds[n].requests && Went(p, r, n, rid, r.worlds[n].requests[rid])
    ensures var after := Step(p, r.worlds[n], r.actions[n]);
            rid in after.requests && Went(p, r, n + 1, rid, after.requests[rid])
  {
    var a, w := r.actions[n], r.worlds[n];
    var Fetching(req, ctx, began) := w.requests[rid];
    var outcome := AfterTools(p, w.core, req, ctx, a.fetched, a.wall, a.now, a.faults).1;
    assert FetchesAt(p, r, n, rid, req, ctx, outcome);
    if !a.fetched.FetchCancelled? {
      ToolsFacts(p, w.core, req, ctx, a.fetched, a.wall, a.now, a.faults);
    }
    if outcome.AwaitingReply? {
      assert DidCall(p, r, n, rid, req, ctx, MomentAt(r, n), a.fetched.ToolList());
    }
  }

  lemma ReplyGoes(p: Policy, r: Behaviour, n: nat, rid: nat)
    requires n < |r.actions| < |r.worlds| && Enabled(r.worlds[n], r.actions[n])
    requires r.actions[n].GetReply? && r.actions[n].rid == rid
    requires rid in r.worlds[n].requests && Went(p, r, n, rid, r.worlds[n].requests[rid])
    ensures var after := Step(p, r.worlds[n], r.actions[n]);
            rid in after.requests && Went(p, r, n + 1, rid, after.requests[rid])
  {
    var a, w := r.actions[n], r.worlds[n];
    var Calling(req, ctx, began, fetched, tools) := w.requests[rid];
    var outcome := AfterReply(p, w.core, req, ctx, a.reply, a.wall, a.now, a.faults).1;
    ReplyFacts(p, w.core, req, ctx, a.reply, a.wall, a.now, a.faults);
    var trail := if outcome.Returned? then TrailOf(a.reply, outcome.result, began, fetched, tools) else NoTrail;
    assert RepliesAt(p, r, n, rid, req, ctx, outcome);
    assert GatewayRuns.Step(p, w, a).requests[rid].Finished? ==> outcome.Returned?;
    assert DidReply(p, r, n, rid, req, ctx, outcome, began, fetched, tools, trail);
  }

  lemma WentStep(p: Policy, r: Behaviour, n: nat, rid: nat)
    requires |r.worlds| == |r.actions| + 1 && n < |r.actions| && Happens(p, r, n)
    requires rid in r.worlds[n].requests ==> Went(p, r, n, rid, r.worlds[n].requests[rid])
    ensures rid in r.worlds[n + 1].requests ==> Went(p, r, n + 1, rid, r.worlds[n + 1].requests[rid])
  {
    var w, a := r.worlds[n], r.actions[n];
    if !(Enabled(w, a) && About(a, rid)) {
      OthersStay(p, w, a, rid);
      if rid in w.requests {
        StillWent(p, r, n, rid, w.requests[rid]);
      }
    } else if a.Arrive? {
      ArrivalGoes(p, r, n, rid);
    } else if a.GetTools? {
      FetchGoes(p, r, n, rid);
    } else {
      ReplyGoes(p, r, n, rid);
    }
  }
}
