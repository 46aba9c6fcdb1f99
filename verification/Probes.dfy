/** When a breaker has at most one probe out. Here a call has an identity and remembers when it was let
    through, and whether the breaker was closed then; a probe is a call let through otherwise. */
module Probes {
  import opened CircuitBreaking
  import History = BreakerTheorems

  datatype Call = Call(granted: real, probe: bool)

  /** A call asks the breaker, reports to it, or ends without a report. */
  datatype Event = Ask(id: nat, time: real) | Report(id: nat, ok: bool, time: real) | Lose(id: nat, time: real)

  /** The breaker and the calls that are out: let through and not ended yet. */
  datatype State = State(breaker: Breaker, out: map<nat, Call>)

  const START := State(FRESH, map[])

  function ProbesOf(out: map<nat, Call>): set<nat> { set id | id in out && out[id].probe }

  function Next(cfg: Config, s: State, e: Event): State {
    match e
    case Ask(id, t) =>
      var (b, granted) := Allow(cfg, s.breaker, t);
      State(b, if granted then s.out[id := Call(t, s.breaker.mode != Closed)] else s.out)
    case Report(id, ok, t) => State(if ok then Succeed(s.breaker) else Fail(cfg, s.breaker, t), s.out - {id})
    case Lose(id, _) => s.(out := s.out - {id})
  }

  function Play(cfg: Config, es: seq<Event>): State {
    if es == [] then START else Next(cfg, Play(cfg, es[..|es| - 1]), es[|es| - 1])
  }

  /** No call is out longer than `limit` at this time. */
  ghost predicate OnTime(out: map<nat, Call>, limit: real, now: real) {
    forall id :: id in out ==> now <= out[id].granted + limit
  }

  /** Time goes on, a call asks once and ends once, and nothing happens later than `limit` after the
      grant of a call that is still out. */
  ghost predicate Timely(cfg: Config, limit: real, es: seq<Event>) {
    es != [] ==>
      var most, e := es[..|es| - 1], es[|es| - 1];
      && Timely(cfg, limit, most) && (most != [] ==> most[|most| - 1].time <= e.time)
      && (e.Ask? <==> e.id !in Play(cfg, most).out) && OnTime(Play(cfg, most).out, limit, e.time)
  }

  /** What the breaker sees of an event. */
  function Seen(e: Event): seq<History.Event> {
    match e
    case Ask(_, t) => [History.Asked(t)]
    case Report(_, ok, t) => [if ok then History.Succeeded(t) else History.Failed(t)]
    case Lose(_, _) => []
  }

  function Plain(es: seq<Event>): seq<History.Event> {
    if es == [] then [] else Plain(es[..|es| - 1]) + Seen(es[|es| - 1])
  }

  lemma SeenNext(cfg: Config, s: State, es: seq<History.Event>, e: Event)
    requires s.breaker == History.Run(cfg, FRESH, es)
    ensures Next(cfg, s, e).breaker == History.Run(cfg, FRESH, es + Seen(e))
  {
    if e.Lose? {
      assert es + Seen(e) == es;
    } else {
      assert History.Most(es + Seen(e)) == es;
    }
  }

  /** The breaker of a history with identities is that of the history without. */
  lemma {:induction false} PlayIsRun(cfg: Config, es: seq<Event>)
    ensures Play(cfg, es).breaker == History.Run(cfg, FRESH, Plain(es))
  {
    if es != [] {
      var most, e := es[..|es| - 1], es[|es| - 1];
      PlayIsRun(cfg, most);
      SeenNext(cfg, Play(cfg, most), Plain(most), e);
    }
  }

  // ----- a time limit below the cooldown keeps probes apart -------------------------------------

  /** At most one probe is out; while the breaker is open every call out was let through before the trip;
      while it is half open nothing but its probe is out. */
  ghost predicate Alone(s: State, now: real) {
    && |ProbesOf(s.out)| <= 1
    && (forall id :: id in s.out ==> s.out[id].granted <= now)
    && (s.breaker.mode == Open ==> forall id :: id in s.out ==> s.out[id].granted <= s.breaker.openedAt)
    && (s.breaker.mode == HalfOpen ==> s.breaker.probeInFlight && forall id :: id in s.out ==> s.out[id].probe)
  }

  lemma AskKeepsAlone(cfg: Config, limit: real, s: State, now: real, id: nat, later: real)
    requires limit < cfg.cooldown && Alone(s, now) && now <= later && id !in s.out && OnTime(s.out, limit, later)
    ensures Alone(Next(cfg, s, Ask(id, later)), later)
  {
    var (b, granted) := Allow(cfg, s.breaker, later);
    if granted && s.breaker.mode == Open {
      assert s.out == map[];
      assert ProbesOf(map[id := Call(later, true)]) == {id};
    } else if granted {
      assert ProbesOf(s.out[id := Call(later, false)]) == ProbesOf(s.out);
    }
  }

  lemma FewerProbes(out: map<nat, Call>, id: nat)
    ensures |ProbesOf(out - {id})| <= |ProbesOf(out)|
  {
    assert ProbesOf(out - {id}) == ProbesOf(out) - {id};
  }

  lemma EndKeepsAlone(cfg: Config, s: State, now: real, e: Event)
    requires Alone(s, now) && !e.Ask? && now <= e.time
    ensures Alone(Next(cfg, s, e), e.time)
  {
    FewerProbes(s.out, e.id);
  }

  lemma {:induction false} TimelyIsAlone(cfg: Config, limit: real, es: seq<Event>, now: real)
    requires limit < cfg.cooldown && Timely(cfg, limit, es) && (es != [] ==> es[|es| - 1].time <= now)
    ensures Alone(Play(cfg, es), now)
  {
    if es != [] {
      var most, e := es[..|es| - 1], es[|es| - 1];
      TimelyIsAlone(cfg, limit, most, e.time);
      if e.Ask? {
        AskKeepsAlone(cfg, limit, Play(cfg, most), e.time, e.id, e.time);
      } else {
        EndKeepsAlone(cfg, Play(cfg, most), e.time, e);
      }
    }
  }

  // ----- a time limit that reaches the cooldown does not ----------------------------------------

  /** The calls with these identities, all let through at once by a closed breaker. */
  function Batch(from: nat, to: nat): (r: map<nat, Call>)
    ensures forall id: nat :: id in r <==> from <= id < to
    ensures forall id :: id in r ==> r[id] == Call(0.0, false)
  {
    if to <= from then map[] else Batch(from, to - 1)[to - 1 := Call(0.0, false)]
  }

  function Asks(n: nat): seq<Event> { if n == 0 then [] else Asks(n - 1) + [Ask(n - 1, 0.0)] }

  /** The first of those calls fail at once. */
  function Failures(asked: nat, n: nat): seq<Event> {
    if n == 0 then Asks(asked) else Failures(asked, n - 1) + [Report(n - 1, false, 0.0)]
  }

  ghost predicate Reaches(cfg: Config, limit: real, es: seq<Event>, now: real, s: State) {
    Timely(cfg, limit, es) && Play(cfg, es) == s && (es != [] ==> es[|es| - 1].time == now)
  }

  lemma ReachesNext(cfg: Config, limit: real, es: seq<Event>, now: real, s: State, e: Event)
    requires Reaches(cfg, limit, es, now, s) && now <= e.time
    requires (e.Ask? <==> e.id !in s.out) && OnTime(s.out, limit, e.time)
    ensures Reaches(cfg, limit, es + [e], e.time, Next(cfg, s, e))
  {
    assert (es + [e])[..|es|] == es;
  }

  lemma {:induction false} AsksReach(cfg: Config, limit: real, n: nat)
    requires limit >= 0.0
    ensures Reaches(cfg, limit, Asks(n), 0.0, State(FRESH, Batch(0, n)))
  {
    if n == 0 {
      assert Batch(0, 0) == map[];
    } else {
      AsksReach(cfg, limit, n - 1);
      ReachesNext(cfg, limit, Asks(n - 1), 0.0, State(FRESH, Batch(0, n - 1)), Ask(n - 1, 0.0));
      assert Batch(0, n - 1)[n - 1 := Call(0.0, false)] == Batch(0, n);
    }
  }

  function FailedTimes(cfg: Config, n: nat): Breaker {
    if n < cfg.threshold then Breaker(Closed, n, 0.0, false) else Trip(0.0)
  }

  lemma FailsNext(cfg: Config, asked: nat, n: nat)
    requires 0 < n <= cfg.threshold && n <= asked
    ensures Next(cfg, State(FailedTimes(cfg, n - 1), Batch(n - 1, asked)), Report(n - 1, false, 0.0))
            == State(FailedTimes(cfg, n), Batch(n, asked))
  {
    assert Batch(n - 1, asked) - {n - 1} == Batch(n, asked);
  }

  lemma {:induction false} FailuresReach(cfg: Config, limit: real, asked: nat, n: nat)
    requires limit >= 0.0 && n <= cfg.threshold && n <= asked
    ensures Reaches(cfg, limit, Failures(asked, n), 0.0, State(FailedTimes(cfg, n), Batch(n, asked)))
  {
    if n == 0 {
      AsksReach(cfg, limit, asked);
    } else {
      FailuresReach(cfg, limit, asked, n - 1);
      FailsNext(cfg, asked, n);
      ReachesNext(cfg, limit, Failures(asked, n - 1), 0.0, State(FailedTimes(cfg, n - 1), Batch(n - 1, asked)),
                  Report(n - 1, false, 0.0));
    }
  }

  /** One call more than the threshold; all but the last fail and trip the breaker. A cooldown later a
      probe goes out, the last call fails late and ends the episode, and a cooldown after that a second
      probe goes out. */
  function SecondProbe(cfg: Config): seq<Event> {
    var n, c := cfg.threshold, cfg.cooldown;
    ((Failures(n + 1, n) + [Ask(n + 1, c)]) + [Report(n, false, c)]) + [Ask(n + 2, c + c)]
  }

  lemma FirstProbe(cfg: Config, limit: real, es: seq<Event>, straggler: nat, id: nat)
    requires Reaches(cfg, limit, es, 0.0, State(Trip(0.0), map[straggler := Call(0.0, false)]))
    requires limit >= cfg.cooldown && id != straggler
    ensures Reaches(cfg, limit, es + [Ask(id, cfg.cooldown)], cfg.cooldown,
                    State(Breaker(HalfOpen, 0, 0.0, true),
                          map[straggler := Call(0.0, false), id := Call(cfg.cooldown, true)]))
  {
    ReachesNext(cfg, limit, es, 0.0, State(Trip(0.0), map[straggler := Call(0.0, false)]), Ask(id, cfg.cooldown));
  }

  lemma LateFailure(cfg: Config, limit: real, es: seq<Event>, straggler: nat, id: nat)
    requires limit >= cfg.cooldown && id != straggler
    requires Reaches(cfg, limit, es, cfg.cooldown,
                     State(Breaker(HalfOpen, 0, 0.0, true),
                           map[straggler := Call(0.0, false), id := Call(cfg.cooldown, true)]))
    ensures Reaches(cfg, limit, es + [Report(straggler, false, cfg.cooldown)], cfg.cooldown,
                    State(Trip(cfg.cooldown), map[id := Call(cfg.cooldown, true)]))
  {
    var out := map[straggler := Call(0.0, false), id := Call(cfg.cooldown, true)];
    ReachesNext(cfg, limit, es, cfg.cooldown, State(Breaker(HalfOpen, 0, 0.0, true), out),
                Report(straggler, false, cfg.cooldown));
    assert out - {straggler} == map[id := Call(cfg.cooldown, true)];
  }

  lemma OneProbeMore(cfg: Config, limit: real, es: seq<Event>, first: nat, id: nat)
    requires Reaches(cfg, limit, es, cfg.cooldown, State(Trip(cfg.cooldown), map[first := Call(cfg.cooldown, true)]))
    requires limit >= cfg.cooldown && id != first
    ensures Reaches(cfg, limit, es + [Ask(id, cfg.cooldown + cfg.cooldown)], cfg.cooldown + cfg.cooldown,
                    State(Breaker(HalfOpen, 0, cfg.cooldown, true),
                          map[first := Call(cfg.cooldown, true), id := Call(cfg.cooldown + cfg.cooldown, true)]))
  {
    ReachesNext(cfg, limit, es, cfg.cooldown, State(Trip(cfg.cooldown), map[first := Call(cfg.cooldown, true)]),
                Ask(id, cfg.cooldown + cfg.cooldown));
  }

  lemma SecondProbeReaches(cfg: Config, limit: real)
    requires limit >= cfg.cooldown
    ensures Reaches(cfg, limit, SecondProbe(cfg), cfg.cooldown + cfg.cooldown,
                    State(Breaker(HalfOpen, 0, cfg.cooldown, true),
                          map[cfg.threshold + 1 := Call(cfg.cooldown, true),
                              cfg.threshold + 2 := Call(cfg.cooldown + cfg.cooldown, true)]))
  {
    var n, c := cfg.threshold, cfg.cooldown;
    var e0 := Failures(n + 1, n);
    FailuresReach(cfg, limit, n + 1, n);
    assert Batch(n, n + 1) == map[n := Call(0.0, false)];
    FirstProbe(cfg, limit, e0, n, n + 1);
    LateFailure(cfg, limit, e0 + [Ask(n + 1, c)], n, n + 1);
    OneProbeMore(cfg, limit, (e0 + [Ask(n + 1, c)]) + [Report(n, false, c)], n + 1, n + 2);
  }

  /** With a time limit of a cooldown or more, whatever the configuration, two probes can be out: both
      were let through by a breaker that was not closed, and neither has ended. */
  lemma TwoProbesInFlight(cfg: Config, limit: real)
    requires limit >= cfg.cooldown
    ensures Timely(cfg, limit, SecondProbe(cfg)) && Play(cfg, SecondProbe(cfg)).breaker.mode == HalfOpen
    ensures ProbesOf(Play(cfg, SecondProbe(cfg)).out) == {cfg.threshold + 1, cfg.threshold + 2}
  {
    SecondProbeReaches(cfg, limit);
  }

  /** One probe at a time, in every history in which no call is out longer than the time limit, exactly
      if the limit is below the cooldown. */
  lemma OneProbeIff(cfg: Config, limit: real)
    ensures (forall es: seq<Event> :: Timely(cfg, limit, es) ==> |ProbesOf(Play(cfg, es).out)| <= 1)
            <==> limit < cfg.cooldown
  {
    if limit < cfg.cooldown {
      forall es: seq<Event> | Timely(cfg, limit, es) ensures |ProbesOf(Play(cfg, es).out)| <= 1 {
        TimelyIsAlone(cfg, limit, es, if es == [] then 0.0 else es[|es| - 1].time);
      }
    } else {
      TwoProbesInFlight(cfg, limit);
      assert |{cfg.threshold + 1, cfg.threshold + 2}| == 2;
    }
  }

  // ----- what closes an open breaker ------------------------------------------------------------

  /** Every call out while the breaker is open was let through no later than the trip. */
  ghost predicate OutIsEarlier(s: State, now: real) {
    && (forall id :: id in s.out ==> s.out[id].granted <= now)
    && (s.breaker.mode == Open ==> forall id :: id in s.out ==> s.out[id].granted <= s.breaker.openedAt)
  }

  lemma OutIsEarlierNext(cfg: Config, s: State, now: real, e: Event)
    requires OutIsEarlier(s, now) && now <= e.time
    ensures OutIsEarlier(Next(cfg, s, e), e.time)
  {
  }

  lemma {:induction false} OutIsEarlierInPlay(cfg: Config, limit: real, es: seq<Event>, now: real)
    requires Timely(cfg, limit, es) && (es != [] ==> es[|es| - 1].time <= now)
    ensures OutIsEarlier(Play(cfg, es), now)
  {
    if es != [] {
      var most, e := es[..|es| - 1], es[|es| - 1];
      OutIsEarlierInPlay(cfg, limit, most, e.time);
      OutIsEarlierNext(cfg, Play(cfg, most), e.time, e);
    }
  }

  /** An open breaker closes exactly on a success of a call let through no later than the trip. */
  lemma OnlyLateSuccessCloses(cfg: Config, limit: real, es: seq<Event>, e: Event)
    requires Timely(cfg, limit, es + [e]) && Play(cfg, es).breaker.mode == Open
    ensures Play(cfg, es + [e]).breaker.mode == Closed
            <==> && e.Report? && e.ok && e.id in Play(cfg, es).out
                 && Play(cfg, es).out[e.id].granted <= Play(cfg, es).breaker.openedAt
  {
    assert (es + [e])[..|es|] == es;
    OutIsEarlierInPlay(cfg, limit, es, e.time);
  }
}
