/** In runs: a time limit on upstream calls below the cooldown keeps a tool's probes apart. */
module RunProbes {
  import opened Basics
  import opened Gateway
  import opened GatewayRuns
  import opened RunTheorems
  import opened Probes
  import Breaking = CircuitBreaking

  /** The requests suspended at the upstream call of this tool, as the breaker let them through. */
  function CallsOut(requests: map<nat, Phase>, tool: Text): map<nat, Call> {
    map r | r in requests && requests[r].Calling? && requests[r].req.tool == tool
      :: Call(requests[r].fetched.now, BreakerOf(requests[r].fetched.core, tool).mode != Breaking.Closed)
  }

  lemma CallsOutNext(requests: map<nat, Phase>, rid: nat, phase: Phase, tool: Text)
    ensures var out := CallsOut(requests, tool);
            CallsOut(requests[rid := phase], tool)
            == if phase.Calling? && phase.req.tool == tool
               then out[rid := Call(phase.fetched.now,
                                    BreakerOf(phase.fetched.core, tool).mode != Breaking.Closed)]
               else out - {rid}
  {
  }

  /** The tool's breaker with the calls that are out. */
  function StateOf(w: World, tool: Text): State { State(BreakerOf(w.core, tool), CallsOut(w.requests, tool)) }

  /** No step of the run comes later than the time limit after the grant of a call it finds suspended. */
  ghost predicate WithinLimit(r: Behaviour, n: nat, tool: Text, limit: real)
    requires n < |r.worlds|
  {
    forall i :: 0 <= i < n ==> OnTime(CallsOut(r.worlds[i].requests, tool), limit, r.worlds[i + 1].now)
  }

  lemma GrantAlone(p: Policy, w: World, after: World, s: Shape, tool: Text, limit: real)
    requires Alone(StateOf(w, tool), w.now) && Fits(p, w, after, s) && s.Calls? && s.tool == tool
    requires limit < p.breaker.cooldown && OnTime(CallsOut(w.requests, tool), limit, after.now)
    ensures Alone(StateOf(after, tool), after.now)
  {
    AskKeepsAlone(p.breaker, limit, StateOf(w, tool), w.now, s.rid, after.now);
    CallsOutNext(w.requests, s.rid, after.requests[s.rid], tool);
  }

  lemma ReportAlone(p: Policy, w: World, after: World, s: Shape, tool: Text)
    requires Alone(StateOf(w, tool), w.now) && Fits(p, w, after, s) && s.Reports? && s.tool == tool
    ensures Alone(StateOf(after, tool), after.now)
  {
    EndKeepsAlone(p.breaker, StateOf(w, tool), w.now,
                  if s.lost then Lose(s.rid, after.now) else Report(s.rid, s.ok, after.now));
    CallsOutNext(w.requests, s.rid, after.requests[s.rid], tool);
  }

  lemma CallsStay(p: Policy, w: World, after: World, s: Shape, tool: Text)
    requires RequestsMove(p, w, after, s) && !((s.Calls? || s.Reports?) && s.tool == tool)
    ensures CallsOut(after.requests, tool) == CallsOut(w.requests, tool)
  {
    if OfRequest(s) {
      CallsOutNext(w.requests, s.rid, after.requests[s.rid], tool);
    }
  }

  lemma BreakerStays(p: Policy, w: World, after: World, s: Shape, tool: Text)
    requires BreakersMove(p, w.core, after.core, after.now, s) && !((s.Calls? || s.Reports?) && s.tool == tool)
    ensures BreakerOf(after.core, tool) == BreakerOf(w.core, tool)
  {
  }

  /** What every step keeps. */
  lemma AloneStep(p: Policy, w: World, after: World, s: Shape, tool: Text, limit: real)
    requires Alone(StateOf(w, tool), w.now) && Fits(p, w, after, s)
    requires limit < p.breaker.cooldown && OnTime(CallsOut(w.requests, tool), limit, after.now)
    ensures Alone(StateOf(after, tool), after.now)
  {
    if s.Calls? && s.tool == tool {
      GrantAlone(p, w, after, s, tool, limit);
    } else if s.Reports? && s.tool == tool {
      ReportAlone(p, w, after, s, tool);
    } else {
      CallsStay(p, w, after, s, tool);
      BreakerStays(p, w, after, s, tool);
    }
  }

  lemma {:induction false} AloneInRun(p: Policy, r: Behaviour, n: nat, tool: Text, limit: real)
    requires IsRun(p, r) && n < |r.worlds| && limit < p.breaker.cooldown && WithinLimit(r, n, tool, limit)
    ensures Alone(StateOf(r.worlds[n], tool), r.worlds[n].now)
  {
    if n == 0 {
      assert CallsOut(r.worlds[0].requests, tool) == map[];
    } else {
      AloneInRun(p, r, n - 1, tool, limit);
      var s := ShapeBefore(p, r, n);
      AloneStep(p, r.worlds[n - 1], r.worlds[n], s, tool, limit);
    }
  }

  /** If no call of a tool stays suspended for as long as the cooldown, then at every point of every run at
      most one probe of the tool is out, and while the breaker is half open no other call of it is. */
  lemma OneProbeInRun(p: Policy, r: Behaviour, n: nat, tool: Text, limit: real)
    requires IsRun(p, r) && n < |r.worlds| && limit < p.breaker.cooldown && WithinLimit(r, n, tool, limit)
    ensures var out := CallsOut(r.worlds[n].requests, tool);
            && |ProbesOf(out)| <= 1
            && (BreakerOf(r.worlds[n].core, tool).mode == Breaking.HalfOpen ==> ProbesOf(out) == out.Keys)
  {
    AloneInRun(p, r, n, tool, limit);
  }
}
