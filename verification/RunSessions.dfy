/** What every step of a run keeps for sessions. */
module RunSessions {
  import opened Basics
  import opened Storage
  import opened Gateway
  import opened GatewayRuns
  import Auth = Authentication

  function SessionsOf(): Event -> Option<Auth.Event> {
    (e: Event) =>
      if e.SignedIn? then Some(Auth.Issued(e.id, e.userId, e.time))
      else if e.SignedOut? then Some(Auth.Revoked(e.id))
      else None
  }

  /** The logins and revocations of the record. */
  function SignIns(log: seq<Event>): seq<Auth.Event> { Pick(log, SessionsOf()) }

  /** The users and sessions tables are the history of logins and revocations. */
  ghost predicate SessionsTraced(p: Policy, t: Tables, log: seq<Event>) {
    Auth.Holds(t, SignIns(log), p.sessionTtl)
  }

  ghost predicate SessionsTracedIn(p: Policy, w: World) { SessionsTraced(p, w.core.tables, w.log) }

  ghost predicate NoSignIns(es: seq<Event>) {
    forall i :: 0 <= i < |es| ==> !es[i].SignedIn? && !es[i].SignedOut?
  }

  lemma SignInsOff(log: seq<Event>, es: seq<Event>)
    requires NoSignIns(es)
    ensures SignIns(log + es) == SignIns(log)
  {
    PickNothing(log, es, SessionsOf());
  }

  lemma SignInTraced(p: Policy, t: Tables, t': Tables, log: seq<Event>, id: Text, userId: Text, time: real)
    requires SessionsTraced(p, t, log) && Sha256(id) !in t.sessions && |id| == Auth.TOKEN_LEN && userId in t.users
    requires t'.users == t.users && t'.sessions == Auth.WithSession(t.sessions, id, userId, time, p.sessionTtl)
    ensures SessionsTraced(p, t', log + [SignedIn(id, userId, time)])
  {
    PickNext(log, SignedIn(id, userId, time), SessionsOf());
    Auth.HoldsAfterLogin(t, t', SignIns(log), p.sessionTtl, id, userId, time);
  }

  lemma SignOutTraced(p: Policy, t: Tables, t': Tables, log: seq<Event>, id: Text)
    requires SessionsTraced(p, t, log)
    requires t'.users == t.users && t'.sessions == Auth.WithRevocation(t.sessions, id)
    ensures SessionsTraced(p, t', log + [SignedOut(id)])
  {
    PickNext(log, SignedOut(id), SessionsOf());
    Auth.HoldsAfterRevocation(t, t', SignIns(log), p.sessionTtl, id);
  }

  lemma OthersTraced(p: Policy, t: Tables, t': Tables, log: seq<Event>, es: seq<Event>)
    requires SessionsTraced(p, t, log) && NoSignIns(es) && t.users.Keys <= t'.users.Keys && t'.sessions == t.sessions
    ensures SessionsTraced(p, t', log + es)
  {
    SignInsOff(log, es);
    Auth.HoldsWithMoreUsers(t, t', SignIns(log), p.sessionTtl);
  }

  lemma KindsNoSignIns(s: Shape, es: seq<Event>)
    requires (FirstKind(s, es) && !s.SignsIn? && !s.SignsOut?) || LastKind(s, es)
    ensures NoSignIns(es)
  {
  }

  /** What the first events of a step do. */
  lemma SessionsTracedFirst(p: Policy, w: World, after: World, s: Shape)
    requires SessionsTraced(p, w.core.tables, w.log) && AccountsMove(p, w.core.tables, after.core.tables, s)
    ensures SessionsTraced(p, after.core.tables, w.log + FirstEvents(p, w.core.tables.pins, after.now, s))
  {
    if s.SignsIn? {
      SignInTraced(p, w.core.tables, after.core.tables, w.log, s.id, s.userId, s.time);
    } else if s.SignsOut? {
      SignOutTraced(p, w.core.tables, after.core.tables, w.log, s.id);
    } else {
      var first := FirstEvents(p, w.core.tables.pins, after.now, s);
      EventKinds(p, w.core.tables.pins, after.now, s);
      KindsNoSignIns(s, first);
      OthersTraced(p, w.core.tables, after.core.tables, w.log, first);
    }
  }

  lemma SessionsTracedStep(p: Policy, w: World, after: World, s: Shape)
    requires SessionsTraced(p, w.core.tables, w.log)
    requires LogMoves(p, w, after, s) && AccountsMove(p, w.core.tables, after.core.tables, s)
    ensures SessionsTraced(p, after.core.tables, after.log)
  {
    var t, first := after.core.tables, FirstEvents(p, w.core.tables.pins, after.now, s);
    SessionsTracedFirst(p, w, after, s);
    EventKinds(p, w.core.tables.pins, after.now, s);
    KindsNoSignIns(s, LastEvents(s));
    OthersTraced(p, t, t, w.log + first, LastEvents(s));
  }
}
