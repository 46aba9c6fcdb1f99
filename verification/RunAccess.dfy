/** In runs: who gets a session, and who gets in with one. */
module RunAccess {
  import opened Basics
  import opened Storage
  import Integrity
  import opened Gateway
  import opened GatewayRuns
  import opened RunSessions
  import opened RunTheorems
  import Limiting = RateLimiting
  import Auth = Authentication

  // ----- sessions are earned -----------------------------------------------------------------------

  /** The action is a login with this token whose key hashes to the one stored for this user. */
  ghost predicate EarnedBy(w: World, a: Action, id: Text, userId: Text, time: real) {
    && a.Login? && a.token == id && a.userId == userId && a.wall == time
    && Auth.ValidUserId(userId) && userId in w.core.tables.users
    && w.core.tables.users[userId].apiKeyHash == Sha256(a.apiKey)
  }

  ghost predicate NobodySignsIn(es: seq<Event>) {
    forall i :: 0 <= i < |es| ==> !es[i].SignedIn?
  }

  lemma OnlyLoginsSignIn(p: Policy, w: World, a: Action) returns (more: seq<Event>)
    ensures Step(p, w, a).log == w.log + more
    ensures NobodySignsIn(more)
            || exists id, user, time :: more == [SignedIn(id, user, time)] && EarnedBy(w, a, id, user, time)
  {
    var s := StepFits(p, w, a);
    var first := FirstEvents(p, w.core.tables.pins, Step(p, w, a).now, s);
    more := first + LastEvents(s);
    ConcatAssoc(w.log, first, LastEvents(s));
    EventKinds(p, w.core.tables.pins, Step(p, w, a).now, s);
    if s.SignsIn? {
      assert more == [SignedIn(s.id, s.userId, s.time)];
      LoginSignsIn(p, w, a, s.id, s.userId, s.time);
    }
  }

  lemma LoginSignsIn(p: Policy, w: World, a: Action, id: Text, userId: Text, time: real)
    requires Step(p, w, a).log == w.log + [SignedIn(id, userId, time)]
    ensures EarnedBy(w, a, id, userId, time)
  {
    var log := Step(p, w, a).log;
    assert log[|w.log|] == SignedIn(id, userId, time) && |log| == |w.log| + 1;
    if Enabled(w, a) {
      match a
      case Arrive(rid, req, wall, now, faults) => EnteringSignsNobodyIn(p, w, rid, req, wall, now, faults);
      case Approve(approver, names, tools, wall, now, fault) =>
        ApprovingSignsNobodyIn(p, w, approver, names, tools, wall, now, fault);
      case Login(user, key, token, wall, now) => Auth.LoginIff(w.core.tables, user, key, token, wall, p.sessionTtl);
      case _ =>
    }
  }

  lemma EnteringSignsNobodyIn(p: Policy, w: World, rid: nat, req: Request, wall: real, now: real, faults: set<Site>)
    ensures var log := ArriveStep(p, w, rid, req, wall, now, faults).log;
            forall i :: |w.log| <= i < |log| ==> !log[i].SignedIn?
  {
  }

  lemma ApprovingSignsNobodyIn(p: Policy, w: World, approver: Auth.UserSession, names: Option<seq<Text>>,
      tools: seq<Integrity.ToolDefinition>, wall: real, now: real, fault: Option<ApprovalFault>)
    ensures var log := ApproveStep(p, w, approver, names, tools, wall, now, fault).log;
            forall i :: |w.log| <= i < |log| ==> !log[i].SignedIn?
  {
    var wanted := Wanted(names, tools);
    PinEventsOnlyPin(p, w.core.tables.pins, tools, wanted[..PinnedCount(fault, |wanted|)], approver);
  }

  lemma StepBefore(p: Policy, r: Behaviour, n: nat)
    requires IsRun(p, r) && 0 < n < |r.worlds|
    ensures r.worlds[n] == Step(p, r.worlds[n - 1], r.actions[n - 1])
  {
    assert Happens(p, r, n - 1);
  }

  lemma NewSignIn(p: Policy, w: World, a: Action, after: World, i: nat)
    requires after == Step(p, w, a) && i < |after.log| && after.log[i].SignedIn?
    ensures if i < |w.log| then after.log[i] == w.log[i]
            else EarnedBy(w, a, after.log[i].id, after.log[i].userId, after.log[i].time)
  {
    var more := OnlyLoginsSignIn(p, w, a);
    if |w.log| <= i {
      assert after.log[i] == more[i - |w.log|];
      assert !NobodySignsIn(more);
    }
  }

  /** One of the first `n` actions earned this session. */
  ghost predicate HasEarned(r: Behaviour, n: nat, id: Text, userId: Text, time: real) {
    exists k :: 0 <= k < n && k < |r.worlds| && k < |r.actions| && EarnedBy(r.worlds[k], r.actions[k], id, userId, time)
  }

  lemma EarnedLast(r: Behaviour, n: nat, id: Text, userId: Text, time: real)
    requires n < |r.worlds| && n < |r.actions|
    requires HasEarned(r, n, id, userId, time) || EarnedBy(r.worlds[n], r.actions[n], id, userId, time)
    ensures HasEarned(r, n + 1, id, userId, time)
  {
  }

  /** In every run, every session beyond those of the store was issued by a login action, for a user of the table
      at that point, with the key whose hash the table held then. */
  lemma {:induction false} SignInsAreEarned(p: Policy, r: Behaviour, n: nat, i: nat)
    requires IsRun(p, r) && |r.worlds[0].log| <= i && n < |r.worlds| && i < |r.worlds[n].log|
    requires r.worlds[n].log[i].SignedIn?
    ensures var e := r.worlds[n].log[i]; HasEarned(r, n, e.id, e.userId, e.time)
  {
    if n > 0 {
      var e := r.worlds[n].log[i];
      StepBefore(p, r, n);
      NewSignIn(p, r.worlds[n - 1], r.actions[n - 1], r.worlds[n], i);
      if i < |r.worlds[n - 1].log| {
        SignInsAreEarned(p, r, n - 1, i);
      }
      EarnedLast(r, n - 1, e.id, e.userId, e.time);
    }
  }

  // ----- access is for live sessions, and management for managers -----------------------------------

  /** In every run, a call that asks for access gets in exactly if its session is live by the wall clock it reads,
      the user is within the quota, and, where a manager is asked for, the user's role of that moment may
      manage; it is forbidden exactly if only the last fails; and whoever gets in is the user who logged in. */
  lemma AccessIsEarned(p: Policy, r: Behaviour, i: nat)
    requires IsRun(p, r) && i < |r.actions| && r.actions[i].Access?
    ensures
      var a, w := r.actions[i], r.worlds[i];
      var answer := AccessOf(p, w.core, a.sessionId, a.manager, a.wall, a.now).1;
      && (answer.NoSession? <==> !Auth.Live(SignIns(w.log), p.sessionTtl, a.sessionId, a.wall))
      && (!answer.NoSession? ==> exists user ::
            && LiveFor(p, w.log, a.sessionId, Some(user), a.wall) && user in w.core.tables.users
            && var role := w.core.tables.users[user].role;
            var rate := Limiting.Decide(p.quota, Limiting.Admitted(p.quota, w.core.checks, user), a.now);
            && (answer.Granted? <==> rate.Allowed? && (a.manager ==> role in p.roles && p.roles[role].canManage))
            && (answer.Granted? ==> answer.session.userId == user && answer.session.role == role)
            && (answer.Forbidden? <==> rate.Allowed? && a.manager && !(role in p.roles && p.roles[role].canManage)))
  {
    var a, w := r.actions[i], r.worlds[i];
    SessionsInRun(p, r, i);
    AccessIs(p, w.core, a.sessionId, a.manager, a.wall, a.now);
    ValidFor(p, w, a.sessionId, a.wall);
  }

  lemma ValidFor(p: Policy, w: World, id: Text, wall: real)
    requires SessionsTracedIn(p, w)
    ensures var session := Auth.Validate(w.core.tables, id, wall);
            && (session.Ok? <==> Auth.Live(SignIns(w.log), p.sessionTtl, id, wall))
            && (session.Ok? ==>
                  && LiveFor(p, w.log, id, Some(session.value.userId), wall)
                  && session.value.userId in w.core.tables.users
                  && session.value.role == w.core.tables.users[session.value.userId].role)
  {
    Auth.ValidIffLive(w.core.tables, SignIns(w.log), p.sessionTtl, id, wall);
  }
}
