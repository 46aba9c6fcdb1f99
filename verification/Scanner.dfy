/** The content scanner's walk over arbitrary JSON.

    The walk carries a character budget, a depth limit and a stop flag. It is specified by a pure
    reading: list every string in document order as if there were no budget and no stop, then
    cut that stream. The rules applied to one string are an arbitrary function. */
module Scanning {
  import opened Basics
  import opened JsonModel

  datatype Direction = Input | Output | Description

  datatype RuleCategory =
    | PromptInjection | Exfiltration | SecretAccess | SecretMaterial
    | CommandInjection | PathTraversal | Obfuscation

  /** What a rule reports about a text, before the location is attached. */
  datatype Hit = Hit(rule: Text, category: RuleCategory)

  datatype Finding =
    | RuleFinding(hit: Hit, loc: Text)
    | ExcessiveNesting(loc: Text)
    | OversizedPayload(loc: Text)

  type Rules = (Text, Direction) -> seq<Hit>

  /** Scanner configuration: the budget, the depth limit and the rules. */
  datatype Limits = Limits(maxChars: nat, maxDepth: nat, rules: Rules)

  function Findings(rules: Rules, text: Text, direction: Direction, loc: Text): seq<Finding> {
    var hits := rules(text, direction);
    seq(|hits|, i requires 0 <= i < |hits| => RuleFinding(hits[i], loc))
  }

  // ----- locations ------------------------------------------------------------------------

  function KeyLoc(loc: Text): Text { loc + Lit(".<key>") }

  function MemberLoc(loc: Text, key: Text): Text {
    loc + Lit(".") + (if |key| <= 40 then key else key[..40])
  }

  function ItemLoc(loc: Text, i: nat): Text { loc + Lit("[") + Decimal(i) + Lit("]") }

  // ----- specification: the document-order stream and its cut ------------------------------

  /** What a walk without budget or stop flag meets, in document order. */
  datatype Event = Scan(text: Text, loc: Text) | TooDeep(loc: Text)

  function Events(v: Json, loc: Text, depth: nat, maxDepth: nat): seq<Event>
    decreases v, 1
  {
    if depth > maxDepth then [TooDeep(loc)] else
    match v
    case Null | Bool(_) | Int(_) | Float(_) => []
    case Str(text) => [Scan(text, loc)]
    case Array(items) => ItemEvents(items, 0, loc, depth, maxDepth)
    case Object(ms) => MemberEvents(ms, loc, depth, maxDepth)
  }

  /** Events of consecutive array elements, the first of which has index `base`. */
  function ItemEvents(items: seq<Json>, base: nat, loc: Text, depth: nat, maxDepth: nat): seq<Event>
    decreases items, 0
  {
    if items == [] then [] else
      Events(items[0], ItemLoc(loc, base), depth + 1, maxDepth)
      + ItemEvents(items[1..], base + 1, loc, depth, maxDepth)
  }

  function MemberEvents(ms: seq<Member>, loc: Text, depth: nat, maxDepth: nat): seq<Event>
    decreases ms, 0
  {
    if ms == [] then [] else
      [Scan(ms[0].key, KeyLoc(loc))]
      + Events(ms[0].value, MemberLoc(loc, ms[0].key), depth + 1, maxDepth)
      + MemberEvents(ms[1..], loc, depth, maxDepth)
  }

  datatype Progress = Progress(budget: int, findings: seq<Finding>, stop: bool)

  /** One event against the running budget. */
  function Advance(rules: Rules, direction: Direction, p: Progress, e: Event): Progress {
    if p.stop then p else
    match e
    case TooDeep(loc) => p.(findings := p.findings + [ExcessiveNesting(loc)], stop := true)
    case Scan(text, loc) =>
      var left := p.budget - (|text| + 1);
      if left < 0 then Progress(left, p.findings + [OversizedPayload(loc)], true)
      else Progress(left, p.findings + Findings(rules, text, direction, loc), false)
  }

  function Consume(rules: Rules, direction: Direction, p: Progress, es: seq<Event>): Progress
    decreases es
  {
    if es == [] then p else Consume(rules, direction, Advance(rules, direction, p, es[0]), es[1..])
  }

  lemma {:induction false} ConsumeConcat(rules: Rules, d: Direction, p: Progress, es: seq<Event>, fs: seq<Event>)
    ensures Consume(rules, d, p, es + fs) == Consume(rules, d, Consume(rules, d, p, es), fs)
    decreases es
  {
    if es == [] {
      assert es + fs == fs;
    } else {
      assert (es + fs)[0] == es[0] && (es + fs)[1..] == es[1..] + fs;
      ConsumeConcat(rules, d, Advance(rules, d, p, es[0]), es[1..], fs);
    }
  }

  lemma {:induction false} ConsumeStopped(rules: Rules, d: Direction, p: Progress, es: seq<Event>)
    requires p.stop
    ensures Consume(rules, d, p, es) == p
  {
    if es != [] {
      ConsumeStopped(rules, d, p, es[1..]);
    }
  }

  /** Consuming the members from one on: its key, its value, then the rest. */
  lemma ConsumeMember(rules: Rules, d: Direction, p: Progress, ms: seq<Member>, i: nat, loc: Text, depth: nat,
      maxDepth: nat)
    requires i < |ms|
    ensures
      var key := Advance(rules, d, p, Scan(ms[i].key, KeyLoc(loc)));
      var value := Consume(rules, d, key, Events(ms[i].value, MemberLoc(loc, ms[i].key), depth + 1, maxDepth));
      Consume(rules, d, p, MemberEvents(ms[i..], loc, depth, maxDepth))
      == Consume(rules, d, value, MemberEvents(ms[i + 1..], loc, depth, maxDepth))
  {
    var head := [Scan(ms[i].key, KeyLoc(loc))];
    var inner := Events(ms[i].value, MemberLoc(loc, ms[i].key), depth + 1, maxDepth);
    var rest := MemberEvents(ms[i + 1..], loc, depth, maxDepth);
    assert ms[i..][1..] == ms[i + 1..];
    assert MemberEvents(ms[i..], loc, depth, maxDepth) == (head + inner) + rest;
    ConsumeConcat(rules, d, p, head + inner, rest);
    ConsumeConcat(rules, d, p, head, inner);
    ConsumeOne(rules, d, p, head[0]);
  }

  lemma ConsumeOne(rules: Rules, d: Direction, p: Progress, e: Event)
    ensures Consume(rules, d, p, [e]) == Advance(rules, d, p, e)
  {
    assert [e][1..] == [];
  }

  lemma ConsumeItem(rules: Rules, d: Direction, p: Progress, items: seq<Json>, i: nat, loc: Text, depth: nat,
      maxDepth: nat)
    requires i < |items|
    ensures
      var item := Consume(rules, d, p, Events(items[i], ItemLoc(loc, i), depth + 1, maxDepth));
      Consume(rules, d, p, ItemEvents(items[i..], i, loc, depth, maxDepth))
      == Consume(rules, d, item, ItemEvents(items[i + 1..], i + 1, loc, depth, maxDepth))
  {
    assert items[i..][1..] == items[i + 1..];
    ConsumeConcat(rules, d, p, Events(items[i], ItemLoc(loc, i), depth + 1, maxDepth),
                  ItemEvents(items[i + 1..], i + 1, loc, depth, maxDepth));
  }

  /** The findings of a whole scan. */
  function ScanFindings(limits: Limits, v: Json, direction: Direction, root: Text): seq<Finding> {
    Consume(limits.rules, direction, Progress(limits.maxChars, [], false),
            Events(v, root, 0, limits.maxDepth)).findings
  }

  predicate Blocked(limits: Limits, v: Json, direction: Direction) {
    ScanFindings(limits, v, direction, []) != []
  }

  // ----- the walk --------------------------------------------------------------------------

  class State {
    var budget: int
    var findings: seq<Finding>
    var stop: bool

    constructor (budget: int)
      ensures View() == Progress(budget, [], false)
    {
      this.budget, findings, stop := budget, [], false;
    }

    ghost function View(): Progress
      reads this
    {
      Progress(budget, findings, stop)
    }
  }

  class Scanner {
    const limits: Limits

    constructor (limits: Limits)
      ensures this.limits == limits
    {
      this.limits := limits;
    }

    method ScanText(text: Text, direction: Direction, loc: Text) returns (findings: seq<Finding>)
      ensures |findings| == |limits.rules(text, direction)|
      ensures forall i :: 0 <= i < |findings| ==> findings[i] == RuleFinding(limits.rules(text, direction)[i], loc)
      ensures findings == Findings(limits.rules, text, direction, loc)
    {
      var hits := limits.rules(text, direction);
      findings := [];
      for i := 0 to |hits|
        invariant findings == Findings(limits.rules, text, direction, loc)[..i]
      {
        findings := findings + [RuleFinding(hits[i], loc)];
      }
    }

    method ScanValue(value: Json, direction: Direction, root: Text) returns (findings: seq<Finding>)
      ensures findings == ScanFindings(limits, value, direction, root)
    {
      var state := new State(limits.maxChars);
      Walk(value, direction, root, 0, state);
      findings := state.findings;
    }

    method Walk(value: Json, direction: Direction, loc: Text, depth: nat, st: State)
      modifies st
      ensures st.View() == Consume(limits.rules, direction, old(st.View()), Events(value, loc, depth, limits.maxDepth))
      decreases value, 1
    {
      if st.stop {
        ConsumeStopped(limits.rules, direction, st.View(), Events(value, loc, depth, limits.maxDepth));
        return;
      }
      if depth > limits.maxDepth {
        st.findings := st.findings + [ExcessiveNesting(loc)];
        st.stop := true;
        return;
      }
      match value
      case Null =>
      case Bool(_) =>
      case Int(_) =>
      case Float(_) =>
      case Object(members) => WalkMembers(members, direction, loc, depth, st);
      case Array(items) => WalkItems(items, direction, loc, depth, st);
      case Str(text) => ScanString(text, direction, loc, st);
    }

    method WalkMembers(members: seq<Member>, direction: Direction, loc: Text, depth: nat, st: State)
      requires !st.stop
      modifies st
      ensures st.View()
              == Consume(limits.rules, direction, old(st.View()), MemberEvents(members, loc, depth, limits.maxDepth))
      decreases members, 0
    {
      ghost var before, rules := st.View(), limits.rules;
      for i := 0 to |members|
        invariant !st.stop
        invariant Consume(rules, direction, st.View(), MemberEvents(members[i..], loc, depth, limits.maxDepth))
                  == Consume(rules, direction, before, MemberEvents(members, loc, depth, limits.maxDepth))
      {
        var key, item := members[i].key, members[i].value;
        ghost var rest := MemberEvents(members[i + 1..], loc, depth, limits.maxDepth);
        ConsumeMember(rules, direction, st.View(), members, i, loc, depth, limits.maxDepth);
        ScanString(key, direction, KeyLoc(loc), st);
        if st.stop {
          ConsumeStopped(rules, direction, st.View(), Events(item, MemberLoc(loc, key), depth + 1, limits.maxDepth));
          ConsumeStopped(rules, direction, st.View(), rest);
          return;
        }
        Walk(item, direction, MemberLoc(loc, key), depth + 1, st);
        if st.stop {
          ConsumeStopped(rules, direction, st.View(), rest);
          return;
        }
      }
    }

    method WalkItems(items: seq<Json>, direction: Direction, loc: Text, depth: nat, st: State)
      requires !st.stop
      modifies st
      ensures st.View()
              == Consume(limits.rules, direction, old(st.View()), ItemEvents(items, 0, loc, depth, limits.maxDepth))
      decreases items, 0
    {
      ghost var before, rules := st.View(), limits.rules;
      for i := 0 to |items|
        invariant !st.stop
        invariant Consume(rules, direction, st.View(), ItemEvents(items[i..], i, loc, depth, limits.maxDepth))
                  == Consume(rules, direction, before, ItemEvents(items, 0, loc, depth, limits.maxDepth))
      {
        ConsumeItem(rules, direction, st.View(), items, i, loc, depth, limits.maxDepth);
        Walk(items[i], direction, ItemLoc(loc, i), depth + 1, st);
        if st.stop {
          ConsumeStopped(rules, direction, st.View(), ItemEvents(items[i + 1..], i + 1, loc, depth, limits.maxDepth));
          return;
        }
      }
    }

    method ScanString(text: Text, direction: Direction, loc: Text, st: State)
      modifies st
      requires !st.stop
      ensures st.View() == Advance(limits.rules, direction, old(st.View()), Scan(text, loc))
    {
      st.budget := st.budget - (|text| + 1);
      if st.budget < 0 {
        st.findings := st.findings + [OversizedPayload(loc)];
        st.stop := true;
        return;
      }
      var found := ScanText(text, direction, loc);
      st.findings := st.findings + found;
    }
  }

  // ----- the cut in closed form ------------------------------------------------------------

  function Cost(es: seq<Event>): nat {
    if es == [] then 0 else (if es[0].Scan? then |es[0].text| + 1 else 0) + Cost(es[1..])
  }

  /** All findings of the strings of `es`, in order, with neither budget nor depth limit. */
  function AllFindings(rules: Rules, d: Direction, es: seq<Event>): seq<Finding> {
    if es == [] then [] else
      (if es[0].Scan? then Findings(rules, es[0].text, d, es[0].loc) else []) + AllFindings(rules, d, es[1..])
  }

  /** `k` is where the stream is cut: the longest prefix of strings that fits the budget. */
  ghost predicate IsCut(es: seq<Event>, budget: nat, k: nat) {
    && k <= |es|
    && (forall i :: 0 <= i < k ==> es[i].Scan?)
    && Cost(es[..k]) <= budget
    && (k < |es| ==> es[k].TooDeep? || Cost(es[..k + 1]) > budget)
  }

  function Abuse(e: Event): Finding {
    if e.TooDeep? then ExcessiveNesting(e.loc) else OversizedPayload(e.loc)
  }

  function CutAt(es: seq<Event>, budget: nat): (k: nat)
    ensures k <= |es|
  {
    if es == [] || es[0].TooDeep? || |es[0].text| + 1 > budget then 0
    else 1 + CutAt(es[1..], budget - (|es[0].text| + 1))
  }

  lemma {:induction false} CutAtIsCut(es: seq<Event>, budget: nat)
    ensures IsCut(es, budget, CutAt(es, budget))
  {
    var k := CutAt(es, budget);
    if k == 0 {
      assert es[..0] == [];
      if es != [] {
        assert es[..1] == [es[0]];
      }
    } else {
      CutAtIsCut(es[1..], budget - (|es[0].text| + 1));
      assert es[..k][1..] == es[1..][..k - 1];
      if k < |es| {
        assert es[..k + 1][1..] == es[1..][..k];
      }
    }
  }

  /** What the scan reports of this stream. */
  function UpToCut(rules: Rules, d: Direction, es: seq<Event>, budget: nat): seq<Finding> {
    var k := CutAt(es, budget);
    AllFindings(rules, d, es[..k]) + if k < |es| then [Abuse(es[k])] else []
  }

  lemma CutLater(rules: Rules, d: Direction, es: seq<Event>, budget: nat)
    requires CutAt(es, budget) > 0
    ensures |es[0].text| + 1 <= budget
    ensures UpToCut(rules, d, es, budget)
            == Findings(rules, es[0].text, d, es[0].loc) + UpToCut(rules, d, es[1..], budget - (|es[0].text| + 1))
  {
    FindingsOfPrefix(rules, d, es, CutAt(es, budget));
  }

  lemma {:induction false} ConsumeUpToCut(rules: Rules, d: Direction, p: Progress, es: seq<Event>)
    requires !p.stop && p.budget >= 0
    ensures Consume(rules, d, p, es).findings == p.findings + UpToCut(rules, d, es, p.budget)
    decreases es
  {
    if CutAt(es, p.budget) == 0 {
      assert es[..0] == [];
      if es != [] {
        ConsumeStopped(rules, d, Advance(rules, d, p, es[0]), es[1..]);
      }
    } else {
      var first, q := Findings(rules, es[0].text, d, es[0].loc), Advance(rules, d, p, es[0]);
      CutLater(rules, d, es, p.budget);
      ConsumeUpToCut(rules, d, q, es[1..]);
      ConcatAssoc(p.findings, first, UpToCut(rules, d, es[1..], q.budget));
    }
  }

  lemma FindingsOfPrefix(rules: Rules, d: Direction, es: seq<Event>, k: nat)
    requires 0 < k <= |es| && es[0].Scan?
    ensures AllFindings(rules, d, es[..k])
            == Findings(rules, es[0].text, d, es[0].loc) + AllFindings(rules, d, es[1..][..k - 1])
  {
    assert es[..k][1..] == es[1..][..k - 1];
  }

  lemma {:induction false} CutIsUnique(es: seq<Event>, budget: nat, j: nat, k: nat)
    requires IsCut(es, budget, j) && IsCut(es, budget, k)
    ensures j == k
  {
    if j < k {
      CostOfPrefix(es, j + 1, k);
    } else if k < j {
      CostOfPrefix(es, k + 1, j);
    }
  }

  lemma {:induction false} CostOfPrefix(es: seq<Event>, j: nat, k: nat)
    requires j <= k <= |es|
    ensures Cost(es[..j]) <= Cost(es[..k])
  {
    if j > 0 {
      assert es[..j][1..] == es[1..][..j - 1] && es[..k][1..] == es[1..][..k - 1];
      CostOfPrefix(es[1..], j - 1, k - 1);
    }
  }

  /** The scan reports the findings of exactly the strings before the cut, in document order,
      then at most one resource finding, which is last; the scanned strings fit the budget. */
  lemma ScanIsCutStream(limits: Limits, v: Json, d: Direction, root: Text) returns (k: nat)
    ensures
      var es := Events(v, root, 0, limits.maxDepth);
      && IsCut(es, limits.maxChars, k)
      && (forall j :: IsCut(es, limits.maxChars, j) ==> j == k)
      && ScanFindings(limits, v, d, root)
         == AllFindings(limits.rules, d, es[..k])
            + (if k == |es| then [] else if es[k].TooDeep? then [ExcessiveNesting(es[k].loc)]
               else [OversizedPayload(es[k].loc)])
  {
    var es := Events(v, root, 0, limits.maxDepth);
    k := CutAt(es, limits.maxChars);
    CutAtIsCut(es, limits.maxChars);
    ConsumeUpToCut(limits.rules, d, Progress(limits.maxChars, [], false), es);
    forall j | IsCut(es, limits.maxChars, j) ensures j == k {
      CutIsUnique(es, limits.maxChars, j, k);
    }
  }

  // ----- the verdict -----------------------------------------------------------------------

  /** Every key and string leaf, in document order, whatever the depth. */
  function Texts(v: Json): seq<Text>
    decreases v, 1
  {
    match v
    case Str(text) => [text]
    case Array(items) => ItemTexts(items)
    case Object(ms) => MemberTexts(ms)
    case _ => []
  }

  function ItemTexts(items: seq<Json>): seq<Text>
    decreases items, 0
  {
    if items == [] then [] else Texts(items[0]) + ItemTexts(items[1..])
  }

  function MemberTexts(ms: seq<Member>): seq<Text>
    decreases ms, 0
  {
    if ms == [] then [] else [ms[0].key] + Texts(ms[0].value) + MemberTexts(ms[1..])
  }

  /** The depth of the deepest node below `v`, counting from 0. */
  function Height(v: Json): nat
    decreases v, 1
  {
    match v
    case Array(items) => ItemsHeight(items)
    case Object(ms) => MembersHeight(ms)
    case _ => 0
  }

  function Max(a: nat, b: nat): nat { if a < b then b else a }

  function ItemsHeight(items: seq<Json>): nat
    decreases items, 0
  {
    if items == [] then 0 else Max(1 + Height(items[0]), ItemsHeight(items[1..]))
  }

  function MembersHeight(ms: seq<Member>): nat
    decreases ms, 0
  {
    if ms == [] then 0 else Max(1 + Height(ms[0].value), MembersHeight(ms[1..]))
  }

  function Weight(texts: seq<Text>): nat {
    if texts == [] then 0 else |texts[0]| + 1 + Weight(texts[1..])
  }

  ghost predicate Suspicious(rules: Rules, d: Direction, texts: seq<Text>) {
    exists t :: t in texts && rules(t, d) != []
  }

  predicate AllScans(es: seq<Event>) {
    forall i :: 0 <= i < |es| ==> es[i].Scan?
  }

  function TextsOf(es: seq<Event>): seq<Text>
    requires AllScans(es)
  {
    seq(|es|, i requires 0 <= i < |es| => es[i].text)
  }

  /** Either the walk meets exactly the strings of the value or it meets a node that is too deep. */
  ghost predicate Faithful(es: seq<Event>, fits: bool, texts: seq<Text>) {
    if fits then AllScans(es) && TextsOf(es) == texts else !AllScans(es)
  }

  lemma {:induction false} EventsFaithful(v: Json, loc: Text, depth: nat, maxDepth: nat)
    ensures Faithful(Events(v, loc, depth, maxDepth), depth + Height(v) <= maxDepth, Texts(v))
    decreases v, 1
  {
    if depth <= maxDepth {
      match v
      case Array(items) => ItemEventsFaithful(items, 0, loc, depth, maxDepth);
      case Object(ms) => MemberEventsFaithful(ms, loc, depth, maxDepth);
      case _ =>
    } else {
      assert Events(v, loc, depth, maxDepth)[0].TooDeep?;
    }
  }

  lemma {:induction false} ConcatFaithful(es: seq<Event>, a: bool, ts: seq<Text>, fs: seq<Event>, b: bool,
      us: seq<Text>)
    requires Faithful(es, a, ts) && Faithful(fs, b, us)
    ensures Faithful(es + fs, a && b, ts + us)
  {
    if !a {
      var i :| 0 <= i < |es| && !es[i].Scan?;
      assert (es + fs)[i] == es[i];
    } else if !b {
      var i :| 0 <= i < |fs| && !fs[i].Scan?;
      assert (es + fs)[|es| + i] == fs[i];
    }
  }

  lemma {:induction false} ItemEventsFaithful(items: seq<Json>, base: nat, loc: Text, depth: nat, maxDepth: nat)
    requires depth <= maxDepth
    ensures Faithful(ItemEvents(items, base, loc, depth, maxDepth), depth + ItemsHeight(items) <= maxDepth,
                     ItemTexts(items))
    decreases items, 0
  {
    if items != [] {
      EventsFaithful(items[0], ItemLoc(loc, base), depth + 1, maxDepth);
      ItemEventsFaithful(items[1..], base + 1, loc, depth, maxDepth);
      ConcatFaithful(
        Events(items[0], ItemLoc(loc, base), depth + 1, maxDepth),
        depth + 1 + Height(items[0]) <= maxDepth, Texts(items[0]),
        ItemEvents(items[1..], base + 1, loc, depth, maxDepth),
        depth + ItemsHeight(items[1..]) <= maxDepth, ItemTexts(items[1..]));
    }
  }

  lemma {:induction false} MemberEventsFaithful(ms: seq<Member>, loc: Text, depth: nat, maxDepth: nat)
    requires depth <= maxDepth
    ensures Faithful(MemberEvents(ms, loc, depth, maxDepth), depth + MembersHeight(ms) <= maxDepth, MemberTexts(ms))
    decreases ms, 0
  {
    if ms != [] {
      var head := [Scan(ms[0].key, KeyLoc(loc))];
      var inner := Events(ms[0].value, MemberLoc(loc, ms[0].key), depth + 1, maxDepth);
      EventsFaithful(ms[0].value, MemberLoc(loc, ms[0].key), depth + 1, maxDepth);
      MemberEventsFaithful(ms[1..], loc, depth, maxDepth);
      assert Faithful(head, true, [ms[0].key]);
      ConcatFaithful(head, true, [ms[0].key], inner, depth + 1 + Height(ms[0].value) <= maxDepth, Texts(ms[0].value));
      ConcatFaithful(
        head + inner, depth + 1 + Height(ms[0].value) <= maxDepth, [ms[0].key] + Texts(ms[0].value),
        MemberEvents(ms[1..], loc, depth, maxDepth), depth + MembersHeight(ms[1..]) <= maxDepth, MemberTexts(ms[1..]));
    }
  }

  /** Nothing is found exactly if all events are clean strings within the budget. */
  lemma {:induction false} ConsumeClean(rules: Rules, d: Direction, p: Progress, es: seq<Event>)
    requires !p.stop && p.budget >= 0 && p.findings == []
    ensures Consume(rules, d, p, es).findings == []
            <==> AllScans(es) && !Suspicious(rules, d, TextsOf(es)) && Weight(TextsOf(es)) <= p.budget
    decreases es
  {
    if es != [] {
      var q := Advance(rules, d, p, es[0]);
      if es[0].TooDeep? || q.stop || q.findings != [] {
        FindingsOnlyGrow(rules, d, q, es[1..]);
        if AllScans(es) {
          assert TextsOf(es)[0] == es[0].text;
        }
      } else {
        ConsumeClean(rules, d, q, es[1..]);
        assert AllScans(es) <==> AllScans(es[1..]);
        if AllScans(es) {
          assert TextsOf(es) == [es[0].text] + TextsOf(es[1..]);
          assert |Findings(rules, es[0].text, d, es[0].loc)| == |rules(es[0].text, d)|;
        }
      }
    }
  }

  lemma {:induction false} FindingsOnlyGrow(rules: Rules, d: Direction, p: Progress, es: seq<Event>)
    ensures p.findings <= Consume(rules, d, p, es).findings
    decreases es
  {
    if es != [] {
      FindingsOnlyGrow(rules, d, Advance(rules, d, p, es[0]), es[1..]);
    }
  }

  /** Exact verdict: a value is blocked if and only if some key or string leaf at some depth has
      a finding, or some node lies too deep, or the strings together exceed the budget. */
  lemma Verdict(limits: Limits, v: Json, d: Direction, root: Text)
    ensures ScanFindings(limits, v, d, root) != []
            <==> || Suspicious(limits.rules, d, Texts(v))
                 || Height(v) > limits.maxDepth
                 || Weight(Texts(v)) > limits.maxChars
  {
    var es := Events(v, root, 0, limits.maxDepth);
    EventsFaithful(v, root, 0, limits.maxDepth);
    ConsumeClean(limits.rules, d, Progress(limits.maxChars, [], false), es);
  }

  /** No rule of the direction hits a text, nothing lies too deep, and the texts fit the budget. */
  ghost predicate Passes(limits: Limits, d: Direction, texts: seq<Text>, height: nat) {
    && (forall t :: t in texts ==> limits.rules(t, d) == [])
    && height <= limits.maxDepth && Weight(texts) <= limits.maxChars
  }

  /** A scan finds nothing exactly if the value passes. */
  lemma CleanIffPasses(limits: Limits, v: Json, d: Direction, root: Text)
    ensures ScanFindings(limits, v, d, root) == [] <==> Passes(limits, d, Texts(v), Height(v))
  {
    Verdict(limits, v, d, root);
  }

  // ----- where findings lie ----------------------------------------------------------------

  /** This text stands at this place of the value, if the value itself stands at `loc`: array elements are
      counted from 0, keys stand at `.<key>`, and the value of a key under at most 40 characters of it. */
  ghost predicate HasString(v: Json, loc: Text, t: Text, at: Text) {
    match v
    case Str(text) => t == text && at == loc
    case Array(items) =>
      exists i :: 0 <= i < |items| && HasString(items[i], loc + Lit("[") + Decimal(i) + Lit("]"), t, at)
    case Object(ms) => exists i :: 0 <= i < |ms| && OfMember(ms[i], loc, t, at)
    case _ => false
  }

  ghost predicate OfMember(m: Member, loc: Text, t: Text, at: Text) {
    var under := if |m.key| <= 40 then m.key else m.key[..40];
    (t == m.key && at == loc + Lit(".<key>")) || HasString(m.value, loc + Lit(".") + under, t, at)
  }

  /** A walk meets only strings that stand where it says, and all of them if nothing is too deep. */
  lemma {:induction false} EventsAreStrings(v: Json, loc: Text, depth: nat, maxDepth: nat, t: Text, at: Text)
    ensures Scan(t, at) in Events(v, loc, depth, maxDepth) ==> HasString(v, loc, t, at)
    ensures depth + Height(v) <= maxDepth && HasString(v, loc, t, at) ==> Scan(t, at) in Events(v, loc, depth, maxDepth)
    decreases v, 1
  {
    if depth <= maxDepth {
      match v
      case Array(items) => ItemEventsAreStrings(items, 0, loc, depth, maxDepth, t, at);
      case Object(ms) => MemberEventsAreStrings(ms, loc, depth, maxDepth, t, at);
      case _ =>
    }
  }

  ghost predicate InItems(items: seq<Json>, base: nat, loc: Text, t: Text, at: Text) {
    exists i :: 0 <= i < |items| && HasString(items[i], loc + Lit("[") + Decimal(base + i) + Lit("]"), t, at)
  }

  lemma InItemsNext(items: seq<Json>, base: nat, loc: Text, t: Text, at: Text)
    requires items != []
    ensures InItems(items, base, loc, t, at)
            <==> || HasString(items[0], loc + Lit("[") + Decimal(base) + Lit("]"), t, at)
                 || InItems(items[1..], base + 1, loc, t, at)
  {
    if i :| 0 <= i < |items| && HasString(items[i], loc + Lit("[") + Decimal(base + i) + Lit("]"), t, at) {
      if i > 0 {
        assert items[1..][i - 1] == items[i] && base + i == base + 1 + (i - 1);
      }
    }
    if i :| 0 <= i < |items[1..]|
            && HasString(items[1..][i], loc + Lit("[") + Decimal(base + 1 + i) + Lit("]"), t, at) {
      assert items[1..][i] == items[i + 1] && base + 1 + i == base + (i + 1);
    }
  }

  lemma {:induction false} ItemEventsAreStrings(items: seq<Json>, base: nat, loc: Text, depth: nat, maxDepth: nat,
      t: Text, at: Text)
    requires depth <= maxDepth
    ensures Scan(t, at) in ItemEvents(items, base, loc, depth, maxDepth) ==> InItems(items, base, loc, t, at)
    ensures depth + ItemsHeight(items) <= maxDepth && InItems(items, base, loc, t, at)
            ==> Scan(t, at) in ItemEvents(items, base, loc, depth, maxDepth)
    decreases items, 0
  {
    if items != [] {
      EventsAreStrings(items[0], ItemLoc(loc, base), depth + 1, maxDepth, t, at);
      ItemEventsAreStrings(items[1..], base + 1, loc, depth, maxDepth, t, at);
      InItemsNext(items, base, loc, t, at);
    }
  }

  ghost predicate InMembers(ms: seq<Member>, loc: Text, t: Text, at: Text) {
    exists i :: 0 <= i < |ms| && OfMember(ms[i], loc, t, at)
  }

  lemma InMembersNext(ms: seq<Member>, loc: Text, t: Text, at: Text)
    requires ms != []
    ensures InMembers(ms, loc, t, at) <==> OfMember(ms[0], loc, t, at) || InMembers(ms[1..], loc, t, at)
  {
    if i :| 0 <= i < |ms| && OfMember(ms[i], loc, t, at) {
      if i > 0 {
        assert ms[1..][i - 1] == ms[i];
      }
    }
    if i :| 0 <= i < |ms[1..]| && OfMember(ms[1..][i], loc, t, at) {
      assert ms[1..][i] == ms[i + 1];
    }
  }

  lemma {:induction false} MemberEventsAreStrings(ms: seq<Member>, loc: Text, depth: nat, maxDepth: nat, t: Text,
      at: Text)
    requires depth <= maxDepth
    ensures Scan(t, at) in MemberEvents(ms, loc, depth, maxDepth) ==> InMembers(ms, loc, t, at)
    ensures depth + MembersHeight(ms) <= maxDepth && InMembers(ms, loc, t, at)
            ==> Scan(t, at) in MemberEvents(ms, loc, depth, maxDepth)
    decreases ms, 0
  {
    if ms != [] {
      EventsAreStrings(ms[0].value, MemberLoc(loc, ms[0].key), depth + 1, maxDepth, t, at);
      MemberEventsAreStrings(ms[1..], loc, depth, maxDepth, t, at);
      InMembersNext(ms, loc, t, at);
    }
  }

  /** The texts of a value are the strings that stand somewhere in it. */
  lemma TextsAreStrings(v: Json, root: Text, t: Text)
    ensures t in Texts(v) <==> exists at :: HasString(v, root, t, at)
  {
    var es := Events(v, root, 0, Height(v));
    EventsFaithful(v, root, 0, Height(v));
    if t in Texts(v) {
      var i :| 0 <= i < |Texts(v)| && Texts(v)[i] == t;
      assert TextsOf(es)[i] == es[i].text && es[i] == Scan(t, es[i].loc);
      EventsAreStrings(v, root, 0, Height(v), t, es[i].loc);
      assert HasString(v, root, t, es[i].loc);
    }
    if at :| HasString(v, root, t, at) {
      EventsAreStrings(v, root, 0, Height(v), t, at);
      var i :| 0 <= i < |es| && es[i] == Scan(t, at);
      assert TextsOf(es)[i] == t;
    }
  }

  /** A text weighs one more than its length, and texts weigh together what they weigh one by one. */
  lemma WeightIs(t: Text, texts: seq<Text>)
    ensures Weight([]) == 0 && Weight([t] + texts) == |t| + 1 + Weight(texts)
  {
    assert ([t] + texts)[1..] == texts;
  }

  lemma {:induction false} FindingsAreHits(rules: Rules, d: Direction, es: seq<Event>, h: Hit, at: Text)
    ensures RuleFinding(h, at) in AllFindings(rules, d, es) <==> exists t :: Scan(t, at) in es && h in rules(t, d)
  {
    if es != [] {
      FindingsAreHits(rules, d, es[1..], h, at);
      assert forall e :: e in es <==> e == es[0] || e in es[1..];
      if es[0].Scan? {
        HitsOfOne(rules, d, es[0].text, es[0].loc, h, at);
      }
    }
  }

  lemma HitsOfOne(rules: Rules, d: Direction, t: Text, loc: Text, h: Hit, at: Text)
    ensures RuleFinding(h, at) in Findings(rules, t, d, loc) <==> at == loc && h in rules(t, d)
  {
    var found, hits := Findings(rules, t, d, loc), rules(t, d);
    if i :| 0 <= i < |hits| && hits[i] == h {
      assert found[i] == RuleFinding(h, loc);
    }
  }

  /** Every finding of a rule names the place of a string the rule hits; and if the value is neither too deep
      nor too big, every hit is found. */
  lemma FindingsAreLocated(limits: Limits, v: Json, d: Direction, root: Text, h: Hit, at: Text)
    ensures RuleFinding(h, at) in ScanFindings(limits, v, d, root)
            ==> exists t :: HasString(v, root, t, at) && h in limits.rules(t, d)
    ensures Height(v) <= limits.maxDepth && Weight(Texts(v)) <= limits.maxChars
            && (exists t :: HasString(v, root, t, at) && h in limits.rules(t, d))
            ==> RuleFinding(h, at) in ScanFindings(limits, v, d, root)
  {
    var es := Events(v, root, 0, limits.maxDepth);
    var k := ScanIsCutStream(limits, v, d, root);
    FindingsAreHits(limits.rules, d, es[..k], h, at);
    if t :| Scan(t, at) in es[..k] && h in limits.rules(t, d) {
      EventsAreStrings(v, root, 0, limits.maxDepth, t, at);
    }
    if Height(v) <= limits.maxDepth && Weight(Texts(v)) <= limits.maxChars {
      EverythingIsScanned(limits, v, root);
      if t :| HasString(v, root, t, at) && h in limits.rules(t, d) {
        EventsAreStrings(v, root, 0, limits.maxDepth, t, at);
      }
    }
  }

  lemma {:induction false} CostIsWeight(es: seq<Event>)
    requires AllScans(es)
    ensures Cost(es) == Weight(TextsOf(es))
  {
    if es != [] {
      CostIsWeight(es[1..]);
      assert TextsOf(es)[1..] == TextsOf(es[1..]);
    }
  }

  lemma EverythingIsScanned(limits: Limits, v: Json, root: Text)
    requires Height(v) <= limits.maxDepth && Weight(Texts(v)) <= limits.maxChars
    ensures var es := Events(v, root, 0, limits.maxDepth);
            forall k: nat :: IsCut(es, limits.maxChars, k) ==> k == |es| && es[..k] == es
  {
    var es := Events(v, root, 0, limits.maxDepth);
    EventsFaithful(v, root, 0, limits.maxDepth);
    CostIsWeight(es);
    assert es[..|es|] == es;
    forall k: nat | IsCut(es, limits.maxChars, k) ensures k == |es| && es[..k] == es {
      CutIsUnique(es, limits.maxChars, k, |es|);
    }
  }

  // ----- what a walk reads before it is too deep ------------------------------------------------

  /** A node `k` levels below `v` that stands at `at`, with these texts before it in document order. */
  ghost predicate NodeAt(v: Json, loc: Text, k: nat, before: seq<Text>, at: Text)
    decreases v, 1
  {
    if k == 0 then before == [] && at == loc else
    match v
    case Array(items) => NodeInItems(items, 0, loc, k, before, at)
    case Object(ms) => NodeInMembers(ms, loc, k, before, at)
    case _ => false
  }

  /** It is the first element, or a later one and the texts of the first come before it. */
  ghost predicate NodeInItems(items: seq<Json>, base: nat, loc: Text, k: nat, before: seq<Text>, at: Text)
    requires k > 0
    decreases items, 0
  {
    && items != []
    && (|| NodeAt(items[0], loc + Lit("[") + Decimal(base) + Lit("]"), k - 1, before, at)
        || exists rest ::
             before == Texts(items[0]) + rest && NodeInItems(items[1..], base + 1, loc, k, rest, at))
  }

  ghost predicate NodeInMembers(ms: seq<Member>, loc: Text, k: nat, before: seq<Text>, at: Text)
    requires k > 0
    decreases ms, 0
  {
    && ms != []
    && var under := if |ms[0].key| <= 40 then ms[0].key else ms[0].key[..40];
    (|| (exists rest ::
           before == [ms[0].key] + rest && NodeAt(ms[0].value, loc + Lit(".") + under, k - 1, rest, at))
     || exists rest ::
          before == ([ms[0].key] + Texts(ms[0].value)) + rest && NodeInMembers(ms[1..], loc, k, rest, at))
  }

  /** Some node lies `k` levels below. */
  ghost predicate GoesDown(v: Json, k: nat) {
    k == 0 ||
    match v
    case Array(items) => exists i :: 0 <= i < |items| && GoesDown(items[i], k - 1)
    case Object(ms) => exists i :: 0 <= i < |ms| && GoesDown(ms[i].value, k - 1)
    case _ => false
  }

  /** There are nodes down to the height of a value, and none below. */
  lemma {:induction false} HeightIs(v: Json, k: nat)
    ensures GoesDown(v, k) <==> k <= Height(v)
    decreases v, 1
  {
    if k > 0 {
      match v
      case Array(items) => ItemsHeightIs(items, k);
      case Object(ms) => MembersHeightIs(ms, k);
      case _ =>
    }
  }

  lemma {:induction false} ItemsHeightIs(items: seq<Json>, k: nat)
    requires k > 0
    ensures (exists i :: 0 <= i < |items| && GoesDown(items[i], k - 1)) <==> k <= ItemsHeight(items)
    decreases items, 0
  {
    if items != [] {
      HeightIs(items[0], k - 1);
      ItemsHeightIs(items[1..], k);
      if i :| 0 <= i < |items| && GoesDown(items[i], k - 1) {
        if i > 0 {
          assert items[1..][i - 1] == items[i];
        }
      }
      if i :| 0 <= i < |items[1..]| && GoesDown(items[1..][i], k - 1) {
        assert items[1..][i] == items[i + 1];
      }
    }
  }

  lemma {:induction false} MembersHeightIs(ms: seq<Member>, k: nat)
    requires k > 0
    ensures (exists i :: 0 <= i < |ms| && GoesDown(ms[i].value, k - 1)) <==> k <= MembersHeight(ms)
    decreases ms, 0
  {
    if ms != [] {
      HeightIs(ms[0].value, k - 1);
      MembersHeightIs(ms[1..], k);
      if i :| 0 <= i < |ms| && GoesDown(ms[i].value, k - 1) {
        if i > 0 {
          assert ms[1..][i - 1] == ms[i];
        }
      }
      if i :| 0 <= i < |ms[1..]| && GoesDown(ms[1..][i].value, k - 1) {
        assert ms[1..][i] == ms[i + 1];
      }
    }
  }

  /** The stream lists these texts, then says that the node at `at` is too deep. */
  ghost predicate StopsDeep(es: seq<Event>, k: nat, before: seq<Text>, at: Text) {
    && k < |es| && es[k] == TooDeep(at) && |before| == k
    && forall i :: 0 <= i < k ==> es[i].Scan? && es[i].text == before[i]
  }

  lemma StopsEarlier(es: seq<Event>, fs: seq<Event>, k: nat, before: seq<Text>, at: Text)
    requires StopsDeep(es, k, before, at)
    ensures StopsDeep(es + fs, k, before, at)
  {
  }

  lemma StopsLater(es: seq<Event>, texts: seq<Text>, fs: seq<Event>, k: nat, before: seq<Text>, at: Text)
    requires Faithful(es, true, texts) && StopsDeep(fs, k, before, at)
    ensures StopsDeep(es + fs, |es| + k, texts + before, at)
  {
    assert forall i :: 0 <= i < |es| ==> texts[i] == es[i].text;
  }

  /** If some node is too deep, the walk reads exactly the texts before the node it stops at. */
  lemma {:induction false} EventsStopDeep(v: Json, loc: Text, depth: nat, maxDepth: nat)
    returns (k: nat, before: seq<Text>, at: Text)
    requires depth <= maxDepth + 1 && depth + Height(v) > maxDepth
    ensures StopsDeep(Events(v, loc, depth, maxDepth), k, before, at)
    ensures NodeAt(v, loc, maxDepth + 1 - depth, before, at)
    decreases v, 1
  {
    if depth == maxDepth + 1 {
      k, before, at := 0, [], loc;
    } else {
      match v
      case Array(items) => k, before, at := ItemsStopDeep(items, 0, loc, depth, maxDepth);
      case Object(ms) => k, before, at := MembersStopDeep(ms, loc, depth, maxDepth);
    }
  }

  lemma {:induction false} ItemsStopDeep(items: seq<Json>, base: nat, loc: Text, depth: nat, maxDepth: nat)
    returns (k: nat, before: seq<Text>, at: Text)
    requires depth <= maxDepth && depth + ItemsHeight(items) > maxDepth
    ensures StopsDeep(ItemEvents(items, base, loc, depth, maxDepth), k, before, at)
    ensures NodeInItems(items, base, loc, maxDepth + 1 - depth, before, at)
    decreases items, 0
  {
    var head := Events(items[0], ItemLoc(loc, base), depth + 1, maxDepth);
    var tail := ItemEvents(items[1..], base + 1, loc, depth, maxDepth);
    if depth + 1 + Height(items[0]) > maxDepth {
      k, before, at := EventsStopDeep(items[0], ItemLoc(loc, base), depth + 1, maxDepth);
      StopsEarlier(head, tail, k, before, at);
    } else {
      var j, rest, there := ItemsStopDeep(items[1..], base + 1, loc, depth, maxDepth);
      EventsFaithful(items[0], ItemLoc(loc, base), depth + 1, maxDepth);
      StopsLater(head, Texts(items[0]), tail, j, rest, there);
      k, before, at := |head| + j, Texts(items[0]) + rest, there;
    }
  }

  lemma {:induction false} MembersStopDeep(ms: seq<Member>, loc: Text, depth: nat, maxDepth: nat)
    returns (k: nat, before: seq<Text>, at: Text)
    requires depth <= maxDepth && depth + MembersHeight(ms) > maxDepth
    ensures StopsDeep(MemberEvents(ms, loc, depth, maxDepth), k, before, at)
    ensures NodeInMembers(ms, loc, maxDepth + 1 - depth, before, at)
    decreases ms, 0
  {
    var key := [Scan(ms[0].key, KeyLoc(loc))];
    var inner := Events(ms[0].value, MemberLoc(loc, ms[0].key), depth + 1, maxDepth);
    var tail := MemberEvents(ms[1..], loc, depth, maxDepth);
    assert Faithful(key, true, [ms[0].key]);
    if depth + 1 + Height(ms[0].value) > maxDepth {
      var j, rest, there := EventsStopDeep(ms[0].value, MemberLoc(loc, ms[0].key), depth + 1, maxDepth);
      StopsLater(key, [ms[0].key], inner, j, rest, there);
      k, before, at := 1 + j, [ms[0].key] + rest, there;
      StopsEarlier(key + inner, tail, k, before, at);
    } else {
      var j, rest, there := MembersStopDeep(ms[1..], loc, depth, maxDepth);
      EventsFaithful(ms[0].value, MemberLoc(loc, ms[0].key), depth + 1, maxDepth);
      ConcatFaithful(key, true, [ms[0].key], inner, true, Texts(ms[0].value));
      StopsLater(key + inner, [ms[0].key] + Texts(ms[0].value), tail, j, rest, there);
      k, before, at := |key + inner| + j, ([ms[0].key] + Texts(ms[0].value)) + rest, there;
    }
  }

  /** The stream is in document order: what stands before a member, its key, what stands in its value, and what
      stands after it. */
  lemma {:induction false} MembersInOrder(ms: seq<Member>, i: nat, loc: Text, depth: nat, maxDepth: nat)
    requires i < |ms|
    ensures var value := Events(ms[i].value, MemberLoc(loc, ms[i].key), depth + 1, maxDepth);
            MemberEvents(ms, loc, depth, maxDepth)
            == MemberEvents(ms[..i], loc, depth, maxDepth)
               + (([Scan(ms[i].key, KeyLoc(loc))] + value) + MemberEvents(ms[i + 1..], loc, depth, maxDepth))
  {
    if i > 0 {
      var rest := ms[1..];
      MembersInOrder(rest, i - 1, loc, depth, maxDepth);
      assert ms[..i][1..] == rest[..i - 1] && rest[i - 1] == ms[i] && rest[i - 1 + 1..] == ms[i + 1..];
      var head := [Scan(ms[0].key, KeyLoc(loc))] + Events(ms[0].value, MemberLoc(loc, ms[0].key), depth + 1, maxDepth);
      assert MemberEvents(ms[..i], loc, depth, maxDepth) == head + MemberEvents(rest[..i - 1], loc, depth, maxDepth);
      var value := Events(ms[i].value, MemberLoc(loc, ms[i].key), depth + 1, maxDepth);
      ConcatAssoc(head, MemberEvents(rest[..i - 1], loc, depth, maxDepth),
                  ([Scan(ms[i].key, KeyLoc(loc))] + value) + MemberEvents(ms[i + 1..], loc, depth, maxDepth));
    }
  }

  /** What stands before an item, in it, and after it. */
  lemma {:induction false} ItemsInOrder(items: seq<Json>, i: nat, base: nat, loc: Text, depth: nat, maxDepth: nat)
    requires i < |items|
    ensures ItemEvents(items, base, loc, depth, maxDepth)
            == ItemEvents(items[..i], base, loc, depth, maxDepth)
               + (Events(items[i], ItemLoc(loc, base + i), depth + 1, maxDepth)
                  + ItemEvents(items[i + 1..], base + i + 1, loc, depth, maxDepth))
  {
    if i > 0 {
      var rest := items[1..];
      ItemsInOrder(rest, i - 1, base + 1, loc, depth, maxDepth);
      assert items[..i][1..] == rest[..i - 1] && rest[i - 1] == items[i] && rest[i - 1 + 1..] == items[i + 1..];
      var head := Events(items[0], ItemLoc(loc, base), depth + 1, maxDepth);
      ConcatAssoc(head, ItemEvents(rest[..i - 1], base + 1, loc, depth, maxDepth),
                  Events(items[i], ItemLoc(loc, base + i), depth + 1, maxDepth)
                  + ItemEvents(items[i + 1..], base + i + 1, loc, depth, maxDepth));
    }
  }

  // ----- order independence and monotonicity -----------------------------------------------

  /** Two texts lists the verdict cannot tell apart. */
  ghost predicate SameContent(a: seq<Text>, h: nat, b: seq<Text>, k: nat) {
    h == k && SameTexts(a, b)
  }

  ghost predicate SameTexts(a: seq<Text>, b: seq<Text>) {
    Weight(a) == Weight(b) && forall t :: t in a <==> t in b
  }

  lemma SameTextsChain(a: seq<Text>, b: seq<Text>, c: seq<Text>)
    requires SameTexts(a, b) && SameTexts(b, c)
    ensures SameTexts(a, c)
  {
  }

  lemma {:induction false} WeightConcat(a: seq<Text>, b: seq<Text>)
    ensures Weight(a + b) == Weight(a) + Weight(b)
  {
    if a == [] {
      assert a + b == b;
    } else {
      assert (a + b)[1..] == a[1..] + b;
      WeightConcat(a[1..], b);
    }
  }

  lemma ConcatSameTexts(a: seq<Text>, b: seq<Text>, c: seq<Text>, d: seq<Text>)
    requires SameTexts(a, c) && SameTexts(b, d)
    ensures SameTexts(a + b, c + d)
  {
    WeightConcat(a, b);
    WeightConcat(c, d);
  }

  lemma {:induction false} EquivSameContent(a: Json, b: Json)
    requires Equiv(a, b) && DictLike(a) && DictLike(b)
    ensures SameContent(Texts(a), Height(a), Texts(b), Height(b))
    decreases a, 1
  {
    match (a, b)
    case (Array(xs), Array(ys)) => ItemsSameContent(xs, ys);
    case (Object(ms), Object(ns)) => MembersSameContent(ms, ns);
    case _ =>
  }

  lemma {:induction false} ItemsSameContent(xs: seq<Json>, ys: seq<Json>)
    requires |xs| == |ys| && forall i :: 0 <= i < |xs| ==> Equiv(xs[i], ys[i]) && DictLike(xs[i]) && DictLike(ys[i])
    ensures SameContent(ItemTexts(xs), ItemsHeight(xs), ItemTexts(ys), ItemsHeight(ys))
    decreases xs, 0
  {
    if xs != [] {
      EquivSameContent(xs[0], ys[0]);
      ItemsSameContent(xs[1..], ys[1..]);
      ConcatSameTexts(Texts(xs[0]), ItemTexts(xs[1..]), Texts(ys[0]), ItemTexts(ys[1..]));
    }
  }

  /** The strings one member brings. */
  function Own(m: Member): seq<Text> { [m.key] + Texts(m.value) }

  lemma {:induction false} MembersSameContent(ms: seq<Member>, ns: seq<Member>)
    requires EquivMembers(ms, ns) && DictLikeMembers(ms) && DictLikeMembers(ns)
    ensures SameContent(MemberTexts(ms), MembersHeight(ms), MemberTexts(ns), MembersHeight(ns))
    decreases ms, 0
  {
    if ms != [] {
      var j := MatchHead(ms, ns);
      EquivSameContent(ms[0].value, ns[j].value);
      MembersSameContent(ms[1..], Without(ns, j));
      ConcatSameTexts([ms[0].key], Texts(ms[0].value), [ns[j].key], Texts(ns[j].value));
      HeadAndRestSame(ms, ns, j);
      HeightPulledOut(ns, j);
    }
  }

  lemma HeadAndRestSame(ms: seq<Member>, ns: seq<Member>, j: nat)
    requires ms != [] && j < |ns| && SameTexts(Own(ms[0]), Own(ns[j]))
    requires SameTexts(MemberTexts(ms[1..]), MemberTexts(Without(ns, j)))
    ensures SameTexts(MemberTexts(ms), MemberTexts(ns))
  {
    ConcatSameTexts(Own(ms[0]), MemberTexts(ms[1..]), Own(ns[j]), MemberTexts(Without(ns, j)));
    TextsPulledOut(ns, j);
    SameTextsChain(MemberTexts(ms), Own(ns[j]) + MemberTexts(Without(ns, j)), MemberTexts(ns));
  }

  lemma WithoutStep<T>(s: seq<T>, j: nat)
    requires 0 < j < |s|
    ensures Without(s, j) != [] && Without(s, j)[0] == s[0] && Without(s, j)[1..] == Without(s[1..], j - 1)
  {
  }

  lemma {:induction false} TextsPulledOut(ns: seq<Member>, j: nat)
    requires j < |ns|
    ensures SameTexts(Own(ns[j]) + MemberTexts(Without(ns, j)), MemberTexts(ns))
  {
    if j == 0 {
      assert Without(ns, 0) == ns[1..];
    } else {
      WithoutStep(ns, j);
      TextsPulledOut(ns[1..], j - 1);
      var own, head, rest := Own(ns[j]), Own(ns[0]), MemberTexts(Without(ns[1..], j - 1));
      ConcatSameTexts(head, own + rest, head, MemberTexts(ns[1..]));
      SwapTexts(own, head, rest);
      SameTextsChain(own + (head + rest), head + (own + rest), MemberTexts(ns));
    }
  }

  lemma SwapTexts(a: seq<Text>, b: seq<Text>, c: seq<Text>)
    ensures SameTexts(a + (b + c), b + (a + c))
  {
    WeightConcat(a, b + c);
    WeightConcat(b, c);
    WeightConcat(b, a + c);
    WeightConcat(a, c);
  }

  lemma {:induction false} HeightPulledOut(ns: seq<Member>, j: nat)
    requires j < |ns|
    ensures MembersHeight(ns) == Max(1 + Height(ns[j].value), MembersHeight(Without(ns, j)))
  {
    if j == 0 {
      assert Without(ns, 0) == ns[1..];
    } else {
      WithoutStep(ns, j);
      HeightPulledOut(ns[1..], j - 1);
    }
  }

  /** One verdict whatever the limits and the rules. */
  ghost predicate SameVerdict(a: Json, b: Json, d: Direction, root: Text) {
    forall limits :: ScanFindings(limits, a, d, root) == [] <==> ScanFindings(limits, b, d, root) == []
  }

  function Only(t: Text): Rules {
    (s: Text, d: Direction) => if s == t then [Hit([], Obfuscation)] else []
  }

  function NoRules(): Rules { (s: Text, d: Direction) => [] }

  lemma OnlySuspects(t: Text, d: Direction, texts: seq<Text>)
    ensures Suspicious(Only(t), d, texts) <==> t in texts
    ensures !Suspicious(NoRules(), d, texts)
  {
  }

  /** Limits that let `a` through unless it holds `t`; what they block, and `a` passes, tells the two apart. */
  lemma VerdictTellsText(a: Json, b: Json, d: Direction, root: Text, t: Text)
    requires SameVerdict(a, b, d, root) && t in Texts(b)
    ensures t in Texts(a)
  {
    var limits := Limits(Weight(Texts(a)), Height(a), Only(t));
    Verdict(limits, a, d, root);
    Verdict(limits, b, d, root);
    OnlySuspects(t, d, Texts(a));
    OnlySuspects(t, d, Texts(b));
    assert ScanFindings(limits, a, d, root) == [] <==> ScanFindings(limits, b, d, root) == [];
  }

  lemma VerdictTellsSize(a: Json, b: Json, d: Direction, root: Text)
    requires SameVerdict(a, b, d, root)
    ensures Height(b) <= Height(a) && Weight(Texts(b)) <= Weight(Texts(a))
  {
    var limits := Limits(Weight(Texts(a)), Height(a), NoRules());
    Verdict(limits, a, d, root);
    Verdict(limits, b, d, root);
    OnlySuspects([], d, Texts(a));
    assert ScanFindings(limits, a, d, root) == [] <==> ScanFindings(limits, b, d, root) == [];
  }

  lemma ContentDecides(limits: Limits, a: Json, b: Json, d: Direction, root: Text)
    requires SameContent(Texts(a), Height(a), Texts(b), Height(b))
    ensures ScanFindings(limits, a, d, root) == [] <==> ScanFindings(limits, b, d, root) == []
  {
    Verdict(limits, a, d, root);
    Verdict(limits, b, d, root);
  }

  /** Two values have one verdict under all limits and rules if and only if they hold the same texts, weigh
      the same and are equally high. */
  lemma VerdictIsContent(a: Json, b: Json, d: Direction, root: Text)
    ensures SameVerdict(a, b, d, root) <==> SameContent(Texts(a), Height(a), Texts(b), Height(b))
  {
    if SameVerdict(a, b, d, root) {
      VerdictTellsSize(a, b, d, root);
      VerdictTellsSize(b, a, d, root);
      forall t ensures t in Texts(a) <==> t in Texts(b) {
        if t in Texts(a) { VerdictTellsText(b, a, d, root, t); }
        if t in Texts(b) { VerdictTellsText(a, b, d, root, t); }
      }
    }
    if SameContent(Texts(a), Height(a), Texts(b), Height(b)) {
      forall limits ensures ScanFindings(limits, a, d, root) == [] <==> ScanFindings(limits, b, d, root) == [] {
        ContentDecides(limits, a, b, d, root);
      }
    }
  }

  /** The verdict does not depend on key order at any depth, nor on the location label. */
  lemma VerdictIgnoresOrder(limits: Limits, a: Json, b: Json, d: Direction, ra: Text, rb: Text)
    requires Equiv(a, b) && DictLike(a) && DictLike(b)
    ensures ScanFindings(limits, a, d, ra) == [] <==> ScanFindings(limits, b, d, rb) == []
  {
    EquivSameContent(a, b);
    Verdict(limits, a, d, ra);
    Verdict(limits, b, d, rb);
  }

  /** Raising either limit never turns an unblocked value into a blocked one. */
  lemma VerdictMonotone(limits: Limits, larger: Limits, v: Json, d: Direction)
    requires larger.rules == limits.rules && limits.maxChars <= larger.maxChars && limits.maxDepth <= larger.maxDepth
    ensures Blocked(larger, v, d) ==> Blocked(limits, v, d)
  {
    Verdict(limits, v, d, []);
    Verdict(larger, v, d, []);
  }
}
