/** Tool definitions, their fingerprints, and the pins that approval writes. */
module Integrity {
  import opened Basics
  import opened JsonModel
  import opened JsonText
  import opened Canonical
  import opened Scanning
  import opened Storage

  datatype ToolDefinition = ToolDefinition(
    name: Text, description: Text, inputSchema: seq<Member>, annotations: seq<Member>, extras: seq<Member>)

  /** The payload that is serialised, which is also what `model_dump` hands to the scanner. */
  function Payload(d: ToolDefinition): seq<Member> {
    [ Member(Lit("name"), Str(d.name)),
      Member(Lit("description"), Str(d.description)),
      Member(Lit("input_schema"), Object(d.inputSchema)),
      Member(Lit("annotations"), Object(d.annotations)),
      Member(Lit("extras"), Object(d.extras)) ]
  }

  function CanonicalBytes(d: ToolDefinition): Text { Dump(Object(Payload(d))) }

  function Fingerprint(d: ToolDefinition): Digest { Sha256(CanonicalBytes(d)) }

  /** What every Python dict is, and text without split surrogate pairs. */
  ghost predicate WellFormedDefinition(d: ToolDefinition) {
    && PairFree(d.name) && PairFree(d.description)
    && WellFormedMembers(d.inputSchema) && WellFormedMembers(d.annotations) && WellFormedMembers(d.extras)
  }

  ghost predicate WellFormedMembers(ms: seq<Member>) { DictLikeMembers(ms) && PairFreeMembers(ms) }

  /** Equal up to the order of object keys. */
  ghost predicate SameDefinition(d: ToolDefinition, e: ToolDefinition) {
    && d.name == e.name && d.description == e.description
    && EquivMembers(d.inputSchema, e.inputSchema)
    && EquivMembers(d.annotations, e.annotations)
    && EquivMembers(d.extras, e.extras)
  }

  lemma FieldNamesDiffer(d: ToolDefinition)
    ensures DistinctKeys(Payload(d))
    ensures forall i :: 0 <= i < 5 ==> PairFree(Payload(d)[i].key)
  {
    assert Lit("description")[0] == 100 && Lit("annotations")[0] == 97;
  }

  lemma PayloadWellFormed(d: ToolDefinition)
    requires WellFormedDefinition(d)
    ensures DictLike(Object(Payload(d))) && PairFreeValue(Object(Payload(d)))
  {
    FieldNamesDiffer(d);
    assert DictLikeMembers(Payload(d)) && PairFreeMembers(Payload(d));
  }

  lemma PayloadEquiv(d: ToolDefinition, e: ToolDefinition)
    ensures EquivMembers(Payload(d), Payload(e)) <==> SameDefinition(d, e)
  {
    var ms, ns := Payload(d), Payload(e);
    FieldNamesDiffer(e);
    PartnerAt(ms[0], ns, 0);
    PartnerAt(ms[1], ns, 1);
    PartnerAt(ms[2], ns, 2);
    PartnerAt(ms[3], ns, 3);
    PartnerAt(ms[4], ns, 4);
  }

  /** Only the member with its key can be a member's partner. */
  lemma PartnerAt(m: Member, ns: seq<Member>, i: nat)
    requires DistinctKeys(ns) && i < |ns| && ns[i].key == m.key
    ensures HasPartner(m, ns) <==> Equiv(m.value, ns[i].value)
  {
    if HasPartner(m, ns) {
      var j :| 0 <= j < |ns| && ns[j].key == m.key && Equiv(m.value, ns[j].value);
      assert j == i;
    }
  }

  // ----- exactness for all definitions -------------------------------------------------------

  function StandardMembers(ms: seq<Member>): seq<Member> { MergedMembers(Sort(SortedValues(ms))) }

  /** The definition with the members of every object sorted and every split surrogate pair joined. */
  function Standard(d: ToolDefinition): ToolDefinition {
    ToolDefinition(Merge(d.name), Merge(d.description),
                   StandardMembers(d.inputSchema), StandardMembers(d.annotations), StandardMembers(d.extras))
  }

  /** The payload in the order in which its keys sort. */
  function Fields(d: ToolDefinition): seq<Member> {
    [ Member(Lit("annotations"), Object(d.annotations)),
      Member(Lit("description"), Str(d.description)),
      Member(Lit("extras"), Object(d.extras)),
      Member(Lit("input_schema"), Object(d.inputSchema)),
      Member(Lit("name"), Str(d.name)) ]
  }

  lemma SortFields(n: Member, d: Member, i: Member, a: Member, e: Member)
    requires n.key == Lit("name") && d.key == Lit("description") && i.key == Lit("input_schema")
    requires a.key == Lit("annotations") && e.key == Lit("extras")
    ensures Sort([n, d, i, a, e]) == [a, d, e, i, n]
  {
    assert n.key[0] == 110 && d.key[0] == 100 && i.key[0] == 105 && a.key[0] == 97 && e.key[0] == 101;
    assert [e][1..] == [] && [a, e][1..] == [e] && [i, a, e][1..] == [a, e];
    assert [d, i, a, e][1..] == [i, a, e] && [n, d, i, a, e][1..] == [d, i, a, e];
    assert Sort([e]) == [e];
    assert Sort([a, e]) == [a, e];
    InsertAfter(i, a, [e]);
    InsertAfter(i, e, []);
    assert Sort([i, a, e]) == [a, e, i];
    InsertAfter(d, a, [e, i]);
    assert Sort([d, i, a, e]) == [a, d, e, i];
    InsertAfter(n, a, [d, e, i]);
    InsertAfter(n, d, [e, i]);
    InsertAfter(n, e, [i]);
    InsertAfter(n, i, []);
  }

  lemma InsertAfter(m: Member, first: Member, rest: seq<Member>)
    requires !Before(m.key, first.key)
    ensures Insert(m, [first] + rest) == [first] + Insert(m, rest)
  {
    assert ([first] + rest)[1..] == rest;
  }

  function SortedMembers(d: ToolDefinition): ToolDefinition {
    d.(inputSchema := Sort(SortedValues(d.inputSchema)), annotations := Sort(SortedValues(d.annotations)),
       extras := Sort(SortedValues(d.extras)))
  }

  lemma PayloadSorted(d: ToolDefinition)
    ensures Sort(SortedValues(Payload(d))) == Fields(SortedMembers(d))
  {
    var vs := SortedValues(Payload(d));
    SortFields(vs[0], vs[1], vs[2], vs[3], vs[4]);
    assert vs == [vs[0], vs[1], vs[2], vs[3], vs[4]];
  }

  lemma AsciiMerges(s: string)
    requires forall i :: 0 <= i < |s| ==> s[i] as int < 128
    ensures Merge(Lit(s)) == Lit(s)
  {
    MergeIsSame(Lit(s));
  }

  lemma NamesMerge()
    ensures Merge(Lit("name")) == Lit("name") && Merge(Lit("description")) == Lit("description")
    ensures Merge(Lit("input_schema")) == Lit("input_schema")
    ensures Merge(Lit("annotations")) == Lit("annotations") && Merge(Lit("extras")) == Lit("extras")
  {
    AsciiMerges("name");
    AsciiMerges("description");
    AsciiMerges("input_schema");
    AsciiMerges("annotations");
    AsciiMerges("extras");
  }

  lemma FieldsMergeUnder(a: Text, d: Text, e: Text, i: Text, n: Text, t: ToolDefinition)
    requires Merge(a) == a && Merge(d) == d && Merge(e) == e && Merge(i) == i && Merge(n) == n
    ensures MergedMembers([Member(a, Object(t.annotations)), Member(d, Str(t.description)), Member(e, Object(t.extras)),
                           Member(i, Object(t.inputSchema)), Member(n, Str(t.name))])
            == [Member(a, Object(MergedMembers(t.annotations))), Member(d, Str(Merge(t.description))),
                Member(e, Object(MergedMembers(t.extras))), Member(i, Object(MergedMembers(t.inputSchema))),
                Member(n, Str(Merge(t.name)))]
  {
    var ms := [Member(a, Object(t.annotations)), Member(d, Str(t.description)), Member(e, Object(t.extras)),
               Member(i, Object(t.inputSchema)), Member(n, Str(t.name))];
    var r := MergedMembers(ms);
    assert r[0] == Member(a, Object(MergedMembers(t.annotations))) && r[1] == Member(d, Str(Merge(t.description)));
    assert r[2] == Member(e, Object(MergedMembers(t.extras)));
    assert r[3] == Member(i, Object(MergedMembers(t.inputSchema))) && r[4] == Member(n, Str(Merge(t.name)));
  }

  lemma FieldsMerge(d: ToolDefinition)
    ensures MergedMembers(Fields(SortedMembers(d))) == Fields(Standard(d))
  {
    NamesMerge();
    FieldsMergeUnder(Lit("annotations"), Lit("description"), Lit("extras"), Lit("input_schema"), Lit("name"),
                     SortedMembers(d));
  }

  lemma PayloadStandard(d: ToolDefinition)
    ensures Merged(Sorted(Object(Payload(d)))) == Object(Fields(Standard(d)))
  {
    PayloadSorted(d);
    FieldsMerge(d);
  }

  lemma FieldsTell(d: ToolDefinition, e: ToolDefinition)
    requires Fields(d) == Fields(e)
    ensures d == e
  {
    assert forall i :: 0 <= i < 5 ==> Fields(d)[i] == Fields(e)[i];
  }

  /** For all definitions: two have one fingerprint if and only if they are the same once the members
      of every object are sorted and every split surrogate pair is joined. */
  lemma FingerprintIsExact(d: ToolDefinition, e: ToolDefinition)
    ensures Fingerprint(d) == Fingerprint(e) <==> Standard(d) == Standard(e)
  {
    DumpIsExact(Object(Payload(d)), Object(Payload(e)));
    PayloadStandard(d);
    PayloadStandard(e);
    if Fingerprint(d) == Fingerprint(e) {
      FieldsTell(Standard(d), Standard(e));
    }
  }

  /** Without split pairs, two definitions have one fingerprint if and only if they differ at most in
      the order of object keys, at any depth: reordering never matters and every other change does. */
  lemma FingerprintIgnoresOnlyOrder(d: ToolDefinition, e: ToolDefinition)
    requires WellFormedDefinition(d) && WellFormedDefinition(e)
    ensures Fingerprint(d) == Fingerprint(e) <==> SameDefinition(d, e)
  {
    PayloadWellFormed(d);
    PayloadWellFormed(e);
    DumpIsCanonical(Object(Payload(d)), Object(Payload(e)));
    PayloadEquiv(d, e);
  }

  // ----- the scan verdict ----------------------------------------------------------------------

  /** Does the definition pass the scan made at approval? */
  predicate ScanClean(limits: Limits, d: ToolDefinition) {
    ScanFindings(limits, Object(Payload(d)), Description, Lit("definition")) == []
  }

  /** Everything there is to read in a definition: the names of its fields, name and description, and the keys
      and strings of its schema, annotations and extras. */
  function DefinitionTexts(d: ToolDefinition): seq<Text> {
    (([Lit("name"), d.name, Lit("description"), d.description, Lit("input_schema")] + MemberTexts(d.inputSchema))
     + ([Lit("annotations")] + MemberTexts(d.annotations)))
    + ([Lit("extras")] + MemberTexts(d.extras))
  }

  function DefinitionHeight(d: ToolDefinition): nat {
    1 + Max(MembersHeight(d.inputSchema), Max(MembersHeight(d.annotations), MembersHeight(d.extras)))
  }

  /** A definition passes the scan of descriptions. */
  ghost predicate PassesAsDescription(limits: Limits, d: ToolDefinition) {
    Passes(limits, Description, DefinitionTexts(d), DefinitionHeight(d))
  }

  lemma MembersFrom(m: Member, rest: seq<Member>)
    ensures MemberTexts([m] + rest) == ([m.key] + Texts(m.value)) + MemberTexts(rest)
    ensures MembersHeight([m] + rest) == Max(1 + Height(m.value), MembersHeight(rest))
  {
    assert ([m] + rest)[1..] == rest;
  }

  /** Three objects under these keys. */
  lemma ObjectsRead(i: Text, a: Text, e: Text, d: ToolDefinition)
    ensures var ms := [Member(i, Object(d.inputSchema)), Member(a, Object(d.annotations)),
                       Member(e, Object(d.extras))];
            && MemberTexts(ms) == (([i] + MemberTexts(d.inputSchema)) + ([a] + MemberTexts(d.annotations)))
                                  + ([e] + MemberTexts(d.extras))
            && MembersHeight(ms) == DefinitionHeight(d)
  {
    var x, y, z := Member(i, Object(d.inputSchema)), Member(a, Object(d.annotations)), Member(e, Object(d.extras));
    MembersFrom(z, []);
    MembersFrom(y, [z]);
    MembersFrom(x, [y, z]);
    assert [z] + [] == [z] && [y] + [z] == [y, z] && [x] + [y, z] == [x, y, z];
  }

  lemma FieldsRead(n: Text, t: Text, i: Text, a: Text, e: Text, d: ToolDefinition)
    ensures var ms := [Member(n, Str(d.name)), Member(t, Str(d.description)), Member(i, Object(d.inputSchema)),
                       Member(a, Object(d.annotations)), Member(e, Object(d.extras))];
            && MemberTexts(ms)
               == (([n, d.name, t, d.description, i] + MemberTexts(d.inputSchema))
                   + ([a] + MemberTexts(d.annotations)))
                  + ([e] + MemberTexts(d.extras))
            && MembersHeight(ms) == DefinitionHeight(d)
  {
    var x, y := Member(n, Str(d.name)), Member(t, Str(d.description));
    var objects := [Member(i, Object(d.inputSchema)), Member(a, Object(d.annotations)), Member(e, Object(d.extras))];
    ObjectsRead(i, a, e, d);
    MembersFrom(y, objects);
    MembersFrom(x, [y] + objects);
    assert [x] + ([y] + objects) == [x, y, objects[0], objects[1], objects[2]];
    HeadsTogether(n, d.name, t, d.description, i, MemberTexts(d.inputSchema), [a] + MemberTexts(d.annotations),
                  [e] + MemberTexts(d.extras));
  }

  lemma HeadsTogether(a: Text, b: Text, c: Text, d: Text, e: Text, xs: seq<Text>, ys: seq<Text>, zs: seq<Text>)
    ensures ([a] + [b]) + (([c] + [d]) + ((([e] + xs) + ys) + zs)) == (([a, b, c, d, e] + xs) + ys) + zs
  {
  }

  /** The scan of the payload reads just that. */
  lemma PayloadReads(d: ToolDefinition)
    ensures Texts(Object(Payload(d))) == DefinitionTexts(d)
    ensures Height(Object(Payload(d))) == DefinitionHeight(d)
  {
    FieldsRead(Lit("name"), Lit("description"), Lit("input_schema"), Lit("annotations"), Lit("extras"), d);
  }

  /** The scan made at approval is clean exactly if no text of the definition is hit by a rule for descriptions,
      nothing lies too deep and the texts fit the budget. */
  lemma ScanCleanIff(limits: Limits, d: ToolDefinition)
    ensures ScanClean(limits, d) <==> Passes(limits, Description, DefinitionTexts(d), DefinitionHeight(d))
  {
    CleanIffPasses(limits, Object(Payload(d)), Description, Lit("definition"));
    PayloadReads(d);
  }

  /** One verdict whatever the limits and the rules. */
  ghost predicate SameVerdicts(d: ToolDefinition, e: ToolDefinition) {
    forall limits :: PassesAsDescription(limits, d) <==> PassesAsDescription(limits, e)
  }

  lemma {:induction false} InsertHeight(m: Member, ms: seq<Member>)
    ensures MembersHeight(Insert(m, ms)) == Max(1 + Height(m.value), MembersHeight(ms))
  {
    if ms != [] {
      if Before(m.key, ms[0].key) {
        assert ([m] + ms)[1..] == ms;
      } else {
        InsertHeight(m, ms[1..]);
        assert ([ms[0]] + Insert(m, ms[1..]))[1..] == Insert(m, ms[1..]);
      }
    }
  }

  lemma {:induction false} SortHeight(ms: seq<Member>)
    ensures MembersHeight(Sort(ms)) == MembersHeight(ms)
  {
    if ms != [] {
      SortHeight(ms[1..]);
      InsertHeight(ms[0], Sort(ms[1..]));
    }
  }

  /** Sorting members does not change how deep a value is. */
  lemma {:induction false} SortedHeight(v: Json)
    ensures Height(Sorted(v)) == Height(v)
    decreases v, 1
  {
    match v
    case Array(items) => SortedItemsHeight(items);
    case Object(ms) =>
      SortedValuesHeight(ms);
      SortHeight(SortedValues(ms));
    case _ =>
  }

  lemma {:induction false} SortedItemsHeight(items: seq<Json>)
    ensures ItemsHeight(SortedItems(items)) == ItemsHeight(items)
    decreases items, 0
  {
    if items != [] {
      SortedHeight(items[0]);
      SortedItemsHeight(items[1..]);
      assert SortedItems(items)[1..] == SortedItems(items[1..]);
    }
  }

  lemma {:induction false} SortedValuesHeight(ms: seq<Member>)
    ensures MembersHeight(SortedValues(ms)) == MembersHeight(ms)
    decreases ms, 0
  {
    if ms != [] {
      SortedHeight(ms[0].value);
      SortedValuesHeight(ms[1..]);
      assert SortedValues(ms)[1..] == SortedValues(ms[1..]);
    }
  }

  /** Nor does joining split pairs. */
  lemma {:induction false} MergedHeight(v: Json)
    ensures Height(Merged(v)) == Height(v)
    decreases v, 1
  {
    match v
    case Array(items) => MergedItemsHeight(items);
    case Object(ms) => MergedMembersHeight(ms);
    case _ =>
  }

  lemma {:induction false} MergedItemsHeight(items: seq<Json>)
    ensures ItemsHeight(MergedItems(items)) == ItemsHeight(items)
    decreases items, 0
  {
    if items != [] {
      MergedHeight(items[0]);
      MergedItemsHeight(items[1..]);
      assert MergedItems(items)[1..] == MergedItems(items[1..]);
    }
  }

  lemma {:induction false} MergedMembersHeight(ms: seq<Member>)
    ensures MembersHeight(MergedMembers(ms)) == MembersHeight(ms)
    decreases ms, 0
  {
    if ms != [] {
      MergedHeight(ms[0].value);
      MergedMembersHeight(ms[1..]);
      assert MergedMembers(ms)[1..] == MergedMembers(ms[1..]);
    }
  }

  lemma StandardHeight(d: ToolDefinition)
    ensures Height(Object(Payload(d))) == Height(Object(Fields(Standard(d))))
  {
    SortedHeight(Object(Payload(d)));
    MergedHeight(Sorted(Object(Payload(d))));
    PayloadStandard(d);
  }

  /** For all definitions: two get one verdict under all limits and rules if and only if they hold the same
      texts, of the same weight, and are equally high. */
  lemma VerdictIsExact(d: ToolDefinition, e: ToolDefinition)
    ensures SameVerdicts(d, e)
            <==> && SameTexts(DefinitionTexts(d), DefinitionTexts(e))
                 && DefinitionHeight(d) == DefinitionHeight(e)
  {
    VerdictIsContent(Object(Payload(d)), Object(Payload(e)), Description, Lit("definition"));
    PayloadReads(d);
    PayloadReads(e);
    SameVerdictsMeans(d, e);
  }

  lemma SameVerdictsMeans(d: ToolDefinition, e: ToolDefinition)
    ensures SameVerdicts(d, e)
            <==> SameVerdict(Object(Payload(d)), Object(Payload(e)), Description, Lit("definition"))
  {
    var a, b, root := Object(Payload(d)), Object(Payload(e)), Lit("definition");
    forall limits
      ensures ScanFindings(limits, a, Description, root) == [] <==> PassesAsDescription(limits, d)
      ensures ScanFindings(limits, b, Description, root) == [] <==> PassesAsDescription(limits, e)
    {
      ScanCleanIff(limits, d);
      ScanCleanIff(limits, e);
    }
    if SameVerdict(a, b, Description, root) {
      forall limits ensures PassesAsDescription(limits, d) <==> PassesAsDescription(limits, e) {
        assert ScanFindings(limits, a, Description, root) == [] <==> ScanFindings(limits, b, Description, root) == [];
      }
    }
    if SameVerdicts(d, e) {
      forall limits
        ensures ScanFindings(limits, a, Description, root) == [] <==> ScanFindings(limits, b, Description, root) == []
      {
        assert PassesAsDescription(limits, d) <==> PassesAsDescription(limits, e);
      }
    }
  }

  /** For all definitions: a fingerprint carries the verdict, whatever the limits and rules, if and only if
      the two hold the same texts, of the same weight, as they stand, before split pairs are joined. */
  lemma FingerprintCarriesVerdictIff(d: ToolDefinition, e: ToolDefinition)
    requires Fingerprint(d) == Fingerprint(e)
    ensures SameVerdicts(d, e) <==> SameTexts(DefinitionTexts(d), DefinitionTexts(e))
  {
    FingerprintIsExact(d, e);
    StandardHeight(d);
    StandardHeight(e);
    PayloadReads(d);
    PayloadReads(e);
    VerdictIsExact(d, e);
  }

  /** Without split pairs, a definition with the fingerprint of a clean one is clean, although nobody
      scanned it. */
  lemma FingerprintCarriesVerdict(limits: Limits, d: ToolDefinition, e: ToolDefinition)
    requires WellFormedDefinition(d) && WellFormedDefinition(e) && Fingerprint(d) == Fingerprint(e)
    ensures PassesAsDescription(limits, d) <==> PassesAsDescription(limits, e)
  {
    ScanCleanIff(limits, d);
    ScanCleanIff(limits, e);
    FingerprintIgnoresOnlyOrder(d, e);
    PayloadEquiv(d, e);
    PayloadWellFormed(d);
    PayloadWellFormed(e);
    var root := Lit("definition");
    VerdictIgnoresOrder(limits, Object(Payload(d)), Object(Payload(e)), Description, root, root);
  }

  /** A definition with no schema. */
  function Plain(description: Text): ToolDefinition { ToolDefinition([], description, [], [], []) }

  lemma PlainTexts(description: Text)
    ensures DefinitionTexts(Plain(description))
            == [Lit("name"), [], Lit("description"), description,
                Lit("input_schema"), Lit("annotations"), Lit("extras")]
  {
  }

  /** The condition on text is needed: with a split surrogate pair two definitions share a fingerprint, and
      some rule for descriptions hits one and not the other. */
  lemma SplitPairsCarryNoVerdict(c: CodePoint)
    requires 0x10000 <= c
    ensures Fingerprint(Plain([c])) == Fingerprint(Plain(CodePointUnits(c)))
    ensures exists limits ::
              PassesAsDescription(limits, Plain(CodePointUnits(c))) && !PassesAsDescription(limits, Plain([c]))
  {
    SplitPairsPrintAlike(c);
    TextsPrintAlike([c], CodePointUnits(c));
    FingerprintIsExact(Plain([c]), Plain(CodePointUnits(c)));
    OnlyHitsWhole([c], CodePointUnits(c));
  }

  /** A rule that hits only a text of one character tells two descriptions apart. */
  lemma OnlyHitsWhole(t: Text, other: Text)
    requires |t| == 1 && other != t
    ensures exists limits :: PassesAsDescription(limits, Plain(other)) && !PassesAsDescription(limits, Plain(t))
  {
    PlainTexts(t);
    PlainTexts(other);
    var limits := Limits(Weight(DefinitionTexts(Plain(other))), DefinitionHeight(Plain(other)), Only(t));
    assert forall i :: 0 <= i < 7 && i != 3 ==> |DefinitionTexts(Plain(other))[i]| != 1;
    assert t !in DefinitionTexts(Plain(other));
    assert DefinitionTexts(Plain(t))[3] == t;
    assert limits.rules(t, Description) == [Hit([], Obfuscation)];
    assert PassesAsDescription(limits, Plain(other)) && !PassesAsDescription(limits, Plain(t));
  }

  // ----- pinning -----------------------------------------------------------------------------

  datatype IntegrityStatus = OkIntegrity | Changed | Unapproved

  function Verify(pins: map<Text, Pin>, d: ToolDefinition): IntegrityStatus {
    if d.name !in pins then Unapproved
    else if pins[d.name].fingerprint != Fingerprint(d) then Changed
    else OkIntegrity
  }

  /** What a verification comes to. */
  lemma VerifyIs(pins: map<Text, Pin>, d: ToolDefinition)
    ensures Verify(pins, d) == OkIntegrity
            <==> d.name in pins && pins[d.name].fingerprint == Sha256(Dump(Object(Payload(d))))
    ensures Verify(pins, d) == Unapproved <==> d.name !in pins
  {
  }

  class IntegrityChecker {
    const db: Database

    constructor (db: Database)
      ensures this.db == db
    {
      this.db := db;
    }

    function ApprovedFingerprint(tool: Text): Option<Digest>
      reads db
    {
      if tool in db.pins then Some(db.pins[tool].fingerprint) else None
    }

    function VerifyTool(d: ToolDefinition): (status: IntegrityStatus)
      reads db
      ensures status == Verify(db.pins, d)
    {
      match ApprovedFingerprint(d.name)
      case None => Unapproved
      case Some(stored) => if stored != Fingerprint(d) then Changed else OkIntegrity
    }

    method Approve(d: ToolDefinition, approvedBy: Text, now: real) returns (fp: Digest)
      modifies db`pins
      ensures fp == Fingerprint(d)
      ensures db.pins == old(db.pins)[d.name := Pin(fp, now, approvedBy)]
    {
      fp := Fingerprint(d);
      db.UpsertFingerprint(d.name, fp, now, approvedBy);
    }
  }

  /** For all definitions: after an approval, exactly those with the same standard form are accepted
      under its name, which without split pairs are those that differ from it in key order at most;
      every other name is judged as before. */
  lemma ApproveThenVerify(pins: map<Text, Pin>, d: ToolDefinition, approvedBy: Text, now: real, e: ToolDefinition)
    ensures
      var after := pins[d.name := Pin(Fingerprint(d), now, approvedBy)];
      && Verify(after, e) == (if e.name != d.name then Verify(pins, e)
                              else if Standard(d) == Standard(e) then OkIntegrity else Changed)
      && (WellFormedDefinition(d) && WellFormedDefinition(e) && e.name == d.name
          ==> (Verify(after, e) == OkIntegrity <==> SameDefinition(d, e)))
  {
    FingerprintIsExact(d, e);
    if WellFormedDefinition(d) && WellFormedDefinition(e) {
      FingerprintIgnoresOnlyOrder(d, e);
    }
  }
}
