/** The canonical serialisation that is hashed: `json.dumps` with sorted keys, the compact
    separators `,` and `:`, and ASCII escapes (sections 4, 5 and 7 of RFC 8259). It is printing
    after sorting the members of every object. */
module Canonical {
  import opened Basics
  import opened JsonModel
  import opened JsonText

  const COMMA: CodePoint := 44
  const COLON: CodePoint := 58
  const OPEN_BRACKET: CodePoint := 91
  const CLOSE_BRACKET: CodePoint := 93
  const OPEN_BRACE: CodePoint := 123
  const CLOSE_BRACE: CodePoint := 125

  // ----- printing in the given order ---------------------------------------------------------

  /** The parts after the first one, each led by a comma, and the closing character. */
  function Sequel(parts: seq<Text>, close: CodePoint): Text {
    if parts == [] then [close] else [COMMA] + (parts[0] + Sequel(parts[1..], close))
  }

  function Enclosed(open: CodePoint, parts: seq<Text>, close: CodePoint): Text {
    if parts == [] then [open, close] else [open] + (parts[0] + Sequel(parts[1..], close))
  }

  function EntryText(key: Text, body: Text): Text { Quoted(key) + [COLON] + body }

  function Print(v: Json): Text
    decreases v, 1
  {
    match v
    case Null => Lit("null")
    case Bool(b) => if b then Lit("true") else Lit("false")
    case Int(n) => if n < 0 then [MINUS] + Decimal(-n) else Decimal(n)
    case Float(repr) => repr
    case Str(text) => Quoted(text)
    case Array(items) => Enclosed(OPEN_BRACKET, ItemTexts(items), CLOSE_BRACKET)
    case Object(ms) => Enclosed(OPEN_BRACE, EntryTexts(ms), CLOSE_BRACE)
  }

  function ItemTexts(items: seq<Json>): (r: seq<Text>)
    ensures |r| == |items|
    ensures forall i :: 0 <= i < |r| ==> r[i] == Print(items[i])
    decreases items, 0
  {
    if items == [] then [] else [Print(items[0])] + ItemTexts(items[1..])
  }

  function EntryTexts(ms: seq<Member>): (r: seq<Text>)
    ensures |r| == |ms|
    ensures forall i :: 0 <= i < |r| ==> r[i] == EntryText(ms[i].key, Print(ms[i].value))
    decreases ms, 0
  {
    if ms == [] then [] else [EntryText(ms[0].key, Print(ms[0].value))] + EntryTexts(ms[1..])
  }

  // ----- sorting the members of every object -------------------------------------------------

  predicate Before(a: Text, b: Text) {
    if b == [] then false
    else if a == [] then true
    else a[0] < b[0] || (a[0] == b[0] && Before(a[1..], b[1..]))
  }

  function Insert(m: Member, sorted: seq<Member>): seq<Member> {
    if sorted == [] then [m]
    else if Before(m.key, sorted[0].key) then [m] + sorted
    else [sorted[0]] + Insert(m, sorted[1..])
  }

  function Sort(ms: seq<Member>): seq<Member> {
    if ms == [] then [] else Insert(ms[0], Sort(ms[1..]))
  }

  /** The value with the members of every object in the order of their keys, by code points. */
  function Sorted(v: Json): Json
    decreases v, 1
  {
    match v
    case Array(items) => Array(SortedItems(items))
    case Object(ms) => Object(Sort(SortedValues(ms)))
    case _ => v
  }

  function SortedItems(items: seq<Json>): (r: seq<Json>)
    ensures |r| == |items|
    ensures forall i :: 0 <= i < |r| ==> r[i] == Sorted(items[i])
    decreases items, 0
  {
    if items == [] then [] else [Sorted(items[0])] + SortedItems(items[1..])
  }

  function SortedValues(ms: seq<Member>): (r: seq<Member>)
    ensures |r| == |ms|
    ensures forall i :: 0 <= i < |r| ==> r[i] == Member(ms[i].key, Sorted(ms[i].value))
    decreases ms, 0
  {
    if ms == [] then [] else [Member(ms[0].key, Sorted(ms[0].value))] + SortedValues(ms[1..])
  }

  /** `json.dumps` with sorted keys. */
  function Dump(v: Json): Text { Print(Sorted(v)) }

  // ----- joining split pairs everywhere ------------------------------------------------------

  /** The value with the split surrogate pairs of all its texts joined. */
  function Merged(v: Json): Json
    decreases v, 1
  {
    match v
    case Str(text) => Str(Merge(text))
    case Array(items) => Array(MergedItems(items))
    case Object(ms) => Object(MergedMembers(ms))
    case _ => v
  }

  function MergedItems(items: seq<Json>): (r: seq<Json>)
    ensures |r| == |items|
    ensures forall i :: 0 <= i < |r| ==> r[i] == Merged(items[i])
    decreases items, 0
  {
    if items == [] then [] else [Merged(items[0])] + MergedItems(items[1..])
  }

  function MergedMembers(ms: seq<Member>): (r: seq<Member>)
    ensures |r| == |ms|
    ensures forall i :: 0 <= i < |r| ==> r[i] == Member(Merge(ms[i].key), Merged(ms[i].value))
    decreases ms, 0
  {
    if ms == [] then [] else [Member(Merge(ms[0].key), Merged(ms[0].value))] + MergedMembers(ms[1..])
  }

  // ----- values: serialisations end where they end ------------------------------------------

  /** What can follow a complete value. */
  predicate Boundary(x: Text) { x != [] ==> x[0] in [COMMA, COLON, CLOSE_BRACKET, CLOSE_BRACE] }

  /** Neither text is a proper prefix of the other at a boundary. */
  ghost predicate Delimited(s: Text, t: Text) {
    forall x: Text, y: Text :: Boundary(x) && Boundary(y) && s + x == t + y ==> s == t
  }

  lemma DelimitedTail(s: Text, x: Text, t: Text, y: Text)
    requires Delimited(s, t) && Boundary(x) && Boundary(y) && s + x == t + y
    ensures s == t && x == y
  {
    assert x == (s + x)[|s|..] && y == (t + y)[|t|..];
  }

  lemma SequelHead(ps: seq<Text>, x: Text, close: CodePoint)
    ensures var s := Sequel(ps, close) + x;
            if ps == [] then s[0] == close && s[1..] == x
            else s[0] == COMMA && s[1..] == ps[0] + (Sequel(ps[1..], close) + x)
  {
    if ps != [] {
      ConcatAssoc(ps[0], Sequel(ps[1..], close), x);
    }
  }

  lemma {:induction false} SequelSplits(ps: seq<Text>, x: Text, qs: seq<Text>, y: Text, close: CodePoint)
    requires close == CLOSE_BRACKET || close == CLOSE_BRACE
    requires forall i, j :: 0 <= i < |ps| && 0 <= j < |qs| ==> Delimited(ps[i], qs[j])
    requires Sequel(ps, close) + x == Sequel(qs, close) + y
    ensures ps == qs && x == y
  {
    SequelHead(ps, x, close);
    SequelHead(qs, y, close);
    if ps != [] && qs != [] {
      DelimitedTail(ps[0], Sequel(ps[1..], close) + x, qs[0], Sequel(qs[1..], close) + y);
      SequelSplits(ps[1..], x, qs[1..], y, close);
      assert ps == [ps[0]] + ps[1..] && qs == [qs[0]] + qs[1..];
    }
  }

  lemma EnclosedSplits(open: CodePoint, ps: seq<Text>, x: Text, qs: seq<Text>, y: Text, close: CodePoint)
    requires close == CLOSE_BRACKET || close == CLOSE_BRACE
    requires forall i :: 0 <= i < |ps| ==> ps[i] != [] && ps[i][0] != close
    requires forall i :: 0 <= i < |qs| ==> qs[i] != [] && qs[i][0] != close
    requires forall i, j :: 0 <= i < |ps| && 0 <= j < |qs| ==> Delimited(ps[i], qs[j])
    requires Enclosed(open, ps, close) + x == Enclosed(open, qs, close) + y
    ensures ps == qs && x == y
  {
    EnclosedParts(open, ps, x, close);
    EnclosedParts(open, qs, y, close);
    if ps != [] && qs != [] {
      var u, w := Sequel(ps[1..], close) + x, Sequel(qs[1..], close) + y;
      DelimitedTail(ps[0], u, qs[0], w);
      SequelSplits(ps[1..], x, qs[1..], y, close);
      assert ps == [ps[0]] + ps[1..] && qs == [qs[0]] + qs[1..];
    }
  }

  lemma EnclosedParts(open: CodePoint, ps: seq<Text>, x: Text, close: CodePoint)
    requires forall i :: 0 <= i < |ps| ==> ps[i] != [] && ps[i][0] != close
    ensures
      var s := Enclosed(open, ps, close) + x;
      if ps == [] then s[1] == close && s[2..] == x
      else s[1] != close && s[1..] == ps[0] + (Sequel(ps[1..], close) + x)
  {
    var s := Enclosed(open, ps, close) + x;
    if ps != [] {
      var rest := Sequel(ps[1..], close);
      ConcatAssoc(ps[0], rest, x);
      ConcatAssoc([open], ps[0] + rest, x);
      assert s == [open] + (ps[0] + (rest + x));
      assert s[1] == ps[0][0];
    }
  }

  // ----- scalars ---------------------------------------------------------------------------

  predicate Scalar(v: Json) { v.Null? || v.Bool? || v.Int? || v.Float? }

  predicate TokenChar(c: CodePoint) {
    c !in [QUOTE, COMMA, COLON, OPEN_BRACKET, CLOSE_BRACKET, OPEN_BRACE, CLOSE_BRACE]
  }

  predicate Wordlike(s: string) {
    forall i :: 0 <= i < |s| ==> 'a' <= s[i] <= 'z' || 'A' <= s[i] <= 'Z' || s[i] == '-'
  }

  lemma WordToken(s: string)
    requires Wordlike(s)
    ensures forall c :: c in Lit(s) ==> TokenChar(c)
  {
  }

  lemma ScalarToken(v: Json)
    requires Scalar(v)
    ensures Print(v) != [] && forall c :: c in Print(v) ==> TokenChar(c)
  {
    match v
    case Null => WordToken("null");
    case Bool(b) => WordToken(if b then "true" else "false");
    case Int(n) => IntToken(n);
    case Float(repr) => FloatToken(repr);
  }

  lemma FloatToken(t: Text)
    requires IsFloatRepr(t)
    ensures t != [] && forall c :: c in t ==> TokenChar(c)
  {
    WordToken("NaN");
    WordToken("Infinity");
    WordToken("-Infinity");
  }

  lemma TokensDelimited(s: Text, t: Text)
    requires forall c :: c in s ==> TokenChar(c)
    requires forall c :: c in t ==> TokenChar(c)
    ensures Delimited(s, t)
  {
    forall x: Text, y: Text | Boundary(x) && Boundary(y) && s + x == t + y ensures s == t {
      if |s| < |t| {
        NextChar(s, x, t, y);
      } else if |t| < |s| {
        NextChar(t, y, s, x);
      } else {
        assert s == (s + x)[..|s|] && t == (t + y)[..|t|];
      }
    }
  }

  lemma NextChar(s: Text, x: Text, t: Text, y: Text)
    requires |s| < |t| && s + x == t + y
    ensures x != [] && x[0] in t
  {
    assert (s + x)[|s|] == (t + y)[|s|] == t[|s|];
  }

  /** The texts of integers hold only digits and a sign; no other scalar is of this kind. */
  lemma IntToken(n: int)
    ensures Print(Int(n)) != []
    ensures forall i :: 0 <= i < |Print(Int(n))| ==> Print(Int(n))[i] == MINUS || 48 <= Print(Int(n))[i] <= 57
    ensures n >= 0 ==> Print(Int(n))[0] != MINUS
  {
  }

  lemma IntPrintInjective(m: int, n: int)
    requires Print(Int(m)) == Print(Int(n))
    ensures m == n
  {
    IntToken(m);
    IntToken(n);
    if m >= 0 && n >= 0 {
      DecimalRoundTrip(m);
      DecimalRoundTrip(n);
    } else if m < 0 && n < 0 {
      SplitConcat([MINUS], Decimal(-m), [MINUS], Decimal(-n));
      DecimalRoundTrip(-m);
      DecimalRoundTrip(-n);
    }
  }

  /** Every printed float has a character that no printed integer has. */
  lemma FloatHasMark(t: Text) returns (i: nat)
    requires IsFloatRepr(t)
    ensures i < |t| && t[i] != MINUS && !(48 <= t[i] <= 57)
  {
    if t == Lit("NaN") || t == Lit("Infinity") {
      i := 0;
    } else if t == Lit("-Infinity") {
      i := 1;
    } else if DOT in t {
      i :| 0 <= i < |t| && t[i] == DOT;
    } else {
      i :| 0 <= i < |t| && t[i] == LETTER_E;
    }
  }

  /** The first character says which of the literals, numbers and special floats is printed. */
  lemma ScalarPrintInjective(a: Json, b: Json)
    requires Scalar(a) && Scalar(b) && Print(a) == Print(b)
    ensures a == b
  {
    ScalarToken(a);
    ScalarToken(b);
    if a.Int? && b.Int? {
      IntPrintInjective(a.n, b.n);
    } else if a.Float? && b.Int? {
      var i := FloatHasMark(a.repr);
      IntToken(b.n);
    } else if a.Int? && b.Float? {
      var i := FloatHasMark(b.repr);
      IntToken(a.n);
    } else {
      FirstChar(a);
      FirstChar(b);
    }
  }

  predicate NumberStart(c: CodePoint) {
    48 <= c <= 57 || c in [MINUS, PLUS, DOT, LETTER_E, 78, 73]
  }

  lemma FirstChar(v: Json)
    requires Scalar(v) && Print(v) != []
    ensures v.Null? ==> Print(v)[0] == 110
    ensures v.Bool? ==> Print(v)[0] == if v.b then 116 else 102
    ensures v.Int? || v.Float? ==> NumberStart(Print(v)[0])
  {
    if v.Int? {
      IntToken(v.n);
    } else if v.Float? {
      assert v.repr[0] in v.repr;
    }
  }

  // ----- printing tells apart everything but split pairs --------------------------------------

  /** What the induction carries: complete values are self-delimiting, and equal texts come from
      values that are equal once split pairs are joined. */
  ghost predicate Separates(a: Json, b: Json) {
    Delimited(Print(a), Print(b)) && (Print(a) == Print(b) ==> Merged(a) == Merged(b))
  }

  lemma EntryConcat(key: Text, body: Text, x: Text)
    ensures EntryText(key, body) + x == Quoted(key) + ([COLON] + (body + x))
  {
    ConcatAssoc(Quoted(key) + [COLON], body, x);
    ConcatAssoc(Quoted(key), [COLON], body + x);
  }

  lemma EntrySplits(k: Text, s: Text, x: Text, l: Text, t: Text, y: Text)
    requires Delimited(s, t) && Boundary(x) && Boundary(y)
    requires EntryText(k, s) + x == EntryText(l, t) + y
    ensures Quoted(k) == Quoted(l) && s == t
  {
    EntryConcat(k, s, x);
    EntryConcat(l, t, y);
    QuotedSplits(k, [COLON] + (s + x), l, [COLON] + (t + y));
    SplitConcat([COLON], s + x, [COLON], t + y);
    DelimitedTail(s, x, t, y);
  }

  lemma EntriesSeparated(m: Member, n: Member)
    requires Separates(m.value, n.value)
    ensures Delimited(EntryText(m.key, Print(m.value)), EntryText(n.key, Print(n.value)))
    ensures EntryText(m.key, Print(m.value)) == EntryText(n.key, Print(n.value))
            ==> Merge(m.key) == Merge(n.key) && Merged(m.value) == Merged(n.value)
  {
    var s, t := Print(m.value), Print(n.value);
    forall x: Text, y: Text | Boundary(x) && Boundary(y) && EntryText(m.key, s) + x == EntryText(n.key, t) + y
      ensures EntryText(m.key, s) == EntryText(n.key, t)
    {
      EntrySplits(m.key, s, x, n.key, t, y);
    }
    if EntryText(m.key, s) == EntryText(n.key, t) {
      EntrySplits(m.key, s, [], n.key, t, []);
      TextsPrintAlike(m.key, n.key);
    }
  }

  lemma PrintStart(v: Json)
    ensures Print(v) != []
    ensures v.Str? ==> Print(v)[0] == QUOTE
    ensures v.Array? ==> Print(v)[0] == OPEN_BRACKET
    ensures v.Object? ==> Print(v)[0] == OPEN_BRACE
    ensures Scalar(v) ==> TokenChar(Print(v)[0])
  {
    if Scalar(v) {
      ScalarToken(v);
      assert Print(v)[0] in Print(v);
    }
  }

  /** For all values: printed texts end where they end, and tell values apart once pairs are joined. */
  lemma {:induction false} Separated(a: Json, b: Json)
    ensures Separates(a, b)
    decreases a, 1
  {
    if Scalar(a) && Scalar(b) {
      ScalarToken(a);
      ScalarToken(b);
      TokensDelimited(Print(a), Print(b));
      if Print(a) == Print(b) {
        ScalarPrintInjective(a, b);
      }
    } else if a.Str? && b.Str? {
      StringsSeparated(a.text, b.text);
    } else if a.Array? && b.Array? {
      ArraysSeparated(a.items, b.items);
    } else if a.Object? && b.Object? {
      ObjectsSeparated(a.members, b.members);
    } else {
      StartsApart(a, b);
    }
  }

  lemma StartsApart(a: Json, b: Json)
    requires !(Scalar(a) && Scalar(b)) && !(a.Str? && b.Str?) && !(a.Array? && b.Array?) && !(a.Object? && b.Object?)
    ensures Separates(a, b)
  {
    PrintStart(a);
    PrintStart(b);
    forall x: Text, y: Text ensures Print(a) + x != Print(b) + y {
      assert (Print(a) + x)[0] == Print(a)[0] && (Print(b) + y)[0] == Print(b)[0];
    }
  }

  lemma StringsSeparated(s: Text, t: Text)
    ensures Separates(Str(s), Str(t))
  {
    forall x: Text, y: Text | Quoted(s) + x == Quoted(t) + y ensures Quoted(s) == Quoted(t) {
      QuotedSplits(s, x, t, y);
    }
    TextsPrintAlike(s, t);
  }

  lemma {:induction false} ArraysSeparated(xs: seq<Json>, ys: seq<Json>)
    ensures Separates(Array(xs), Array(ys))
    decreases xs, 0
  {
    forall i, j | 0 <= i < |xs| && 0 <= j < |ys| ensures Separates(xs[i], ys[j]) {
      Separated(xs[i], ys[j]);
    }
    var ps, qs := ItemTexts(xs), ItemTexts(ys);
    forall i | 0 <= i < |xs| ensures ps[i] != [] && ps[i][0] != CLOSE_BRACKET { PrintStart(xs[i]); }
    forall i | 0 <= i < |ys| ensures qs[i] != [] && qs[i][0] != CLOSE_BRACKET { PrintStart(ys[i]); }
    PartsSeparated(OPEN_BRACKET, ps, qs, CLOSE_BRACKET);
    if ps == qs {
      assert forall i :: 0 <= i < |xs| ==> ps[i] == qs[i];
      assert MergedItems(xs) == MergedItems(ys);
    }
  }

  lemma {:induction false} ObjectsSeparated(ms: seq<Member>, ns: seq<Member>)
    ensures Separates(Object(ms), Object(ns))
    decreases ms, 0
  {
    forall i, j | 0 <= i < |ms| && 0 <= j < |ns| ensures Separates(ms[i].value, ns[j].value) {
      Separated(ms[i].value, ns[j].value);
    }
    EntriesDelimited(ms, ns);
    EntriesStart(ms);
    EntriesStart(ns);
    PartsSeparated(OPEN_BRACE, EntryTexts(ms), EntryTexts(ns), CLOSE_BRACE);
    if EntryTexts(ms) == EntryTexts(ns) {
      SameEntriesMergeAlike(ms, ns);
    }
  }

  lemma EntriesStart(ms: seq<Member>)
    ensures forall i :: 0 <= i < |ms| ==> EntryTexts(ms)[i] != [] && EntryTexts(ms)[i][0] != CLOSE_BRACE
  {
    forall i | 0 <= i < |ms| ensures EntryTexts(ms)[i] != [] && EntryTexts(ms)[i][0] == QUOTE {
      EntryConcat(ms[i].key, Print(ms[i].value), []);
    }
  }

  lemma EntriesDelimited(ms: seq<Member>, ns: seq<Member>)
    requires forall i, j :: 0 <= i < |ms| && 0 <= j < |ns| ==> Separates(ms[i].value, ns[j].value)
    ensures forall i, j :: 0 <= i < |ms| && 0 <= j < |ns| ==> Delimited(EntryTexts(ms)[i], EntryTexts(ns)[j])
  {
    forall i, j | 0 <= i < |ms| && 0 <= j < |ns| ensures Delimited(EntryTexts(ms)[i], EntryTexts(ns)[j]) {
      EntriesSeparated(ms[i], ns[j]);
    }
  }

  lemma SameEntriesMergeAlike(ms: seq<Member>, ns: seq<Member>)
    requires forall i, j :: 0 <= i < |ms| && 0 <= j < |ns| ==> Separates(ms[i].value, ns[j].value)
    requires EntryTexts(ms) == EntryTexts(ns)
    ensures MergedMembers(ms) == MergedMembers(ns)
  {
    assert |ms| == |EntryTexts(ms)| == |EntryTexts(ns)| == |ns|;
    forall i | 0 <= i < |ms| ensures MergedMembers(ms)[i] == MergedMembers(ns)[i] {
      assert EntryTexts(ms)[i] == EntryTexts(ns)[i];
      EntriesSeparated(ms[i], ns[i]);
    }
  }

  /** Enclosed lists of self-delimiting parts are self-delimiting, and have equal parts if equal. */
  lemma PartsSeparated(open: CodePoint, ps: seq<Text>, qs: seq<Text>, close: CodePoint)
    requires close == CLOSE_BRACKET || close == CLOSE_BRACE
    requires forall i :: 0 <= i < |ps| ==> ps[i] != [] && ps[i][0] != close
    requires forall i :: 0 <= i < |qs| ==> qs[i] != [] && qs[i][0] != close
    requires forall i, j :: 0 <= i < |ps| && 0 <= j < |qs| ==> Delimited(ps[i], qs[j])
    ensures Delimited(Enclosed(open, ps, close), Enclosed(open, qs, close))
    ensures Enclosed(open, ps, close) == Enclosed(open, qs, close) ==> ps == qs
  {
    var s, t := Enclosed(open, ps, close), Enclosed(open, qs, close);
    forall x: Text, y: Text | s + x == t + y ensures ps == qs {
      EnclosedSplits(open, ps, x, qs, y, close);
    }
    if s == t {
      assert s + [] == t + [];
    }
  }

  /** Joining split pairs does not change what is printed. */
  lemma {:induction false} MergedPrintsAlike(v: Json)
    ensures Print(Merged(v)) == Print(v)
    decreases v
  {
    match v
    case Str(text) =>
      MergeIsPairFree(text);
    case Array(items) =>
      forall i | 0 <= i < |items| ensures Print(Merged(items[i])) == Print(items[i]) {
        MergedPrintsAlike(items[i]);
      }
      assert ItemTexts(MergedItems(items)) == ItemTexts(items);
    case Object(ms) =>
      forall i | 0 <= i < |ms| ensures EntryTexts(MergedMembers(ms))[i] == EntryTexts(ms)[i] {
        MergedPrintsAlike(ms[i].value);
        MergeIsPairFree(ms[i].key);
      }
      assert EntryTexts(MergedMembers(ms)) == EntryTexts(ms);
    case _ =>
  }

  /** For all values: two have one serialisation if and only if, with the members of every object
      sorted and then the split pairs of every text joined, they are the same value. */
  lemma DumpIsExact(a: Json, b: Json)
    ensures Dump(a) == Dump(b) <==> Merged(Sorted(a)) == Merged(Sorted(b))
  {
    Separated(Sorted(a), Sorted(b));
    MergedPrintsAlike(Sorted(a));
    MergedPrintsAlike(Sorted(b));
  }

  // ----- sorting ---------------------------------------------------------------------------

  lemma {:induction false} BeforeTotal(a: Text, b: Text)
    ensures Before(a, b) || Before(b, a) || a == b
    ensures !(Before(a, b) && Before(b, a)) && !Before(a, a)
    decreases |a|
  {
    if a != [] && b != [] {
      BeforeTotal(a[1..], b[1..]);
      BeforeTotal(a[1..], a[1..]);
      assert a == [a[0]] + a[1..] && b == [b[0]] + b[1..];
    } else if a != [] {
      BeforeTotal(a[1..], a[1..]);
    }
  }

  lemma {:induction false} BeforeTransitive(a: Text, b: Text, c: Text)
    requires Before(a, b) && Before(b, c)
    ensures Before(a, c)
    decreases |a|
  {
    if a != [] && a[0] == b[0] == c[0] {
      BeforeTransitive(a[1..], b[1..], c[1..]);
    }
  }

  lemma {:induction false} InsertCommutes(d: Member, e: Member, s: seq<Member>)
    requires d.key != e.key
    ensures Insert(d, Insert(e, s)) == Insert(e, Insert(d, s))
  {
    BeforeTotal(d.key, e.key);
    if s == [] {
    } else {
      BeforeTotal(d.key, s[0].key);
      BeforeTotal(e.key, s[0].key);
      if Before(d.key, e.key) && Before(e.key, s[0].key) {
        BeforeTransitive(d.key, e.key, s[0].key);
      } else if Before(e.key, d.key) && Before(d.key, s[0].key) {
        BeforeTransitive(e.key, d.key, s[0].key);
      }
      if !Before(d.key, s[0].key) && !Before(e.key, s[0].key) {
        InsertCommutes(d, e, s[1..]);
      } else if Before(d.key, s[0].key) && !Before(e.key, s[0].key) {
        InsertsAround(d, e, s);
      } else if Before(e.key, s[0].key) && !Before(d.key, s[0].key) {
        InsertsAround(e, d, s);
      }
    }
  }

  lemma InsertsAround(d: Member, e: Member, s: seq<Member>)
    requires s != [] && Before(d.key, s[0].key) && !Before(e.key, s[0].key)
    ensures Insert(d, Insert(e, s)) == Insert(e, Insert(d, s))
  {
    assert !Before(e.key, d.key) by {
      if Before(e.key, d.key) {
        BeforeTransitive(e.key, d.key, s[0].key);
      }
    }
    assert ([d] + s)[1..] == s;
  }

  /** Any member may be sorted in last: the order in which members come does not matter. */
  lemma {:induction false} SortPullsOut(es: seq<Member>, j: nat)
    requires j < |es| && forall i, k :: 0 <= i < k < |es| ==> es[i].key != es[k].key
    ensures Sort(es) == Insert(es[j], Sort(Without(es, j)))
  {
    if j == 0 {
      assert Without(es, 0) == es[1..];
    } else {
      var rest := Without(es, j);
      assert rest[0] == es[0] && rest[1..] == Without(es[1..], j - 1);
      SortPullsOut(es[1..], j - 1);
      InsertCommutes(es[0], es[j], Sort(Without(es[1..], j - 1)));
    }
  }

  lemma {:induction false} InsertKeeps(e: Member, s: seq<Member>, x: Member)
    ensures x in Insert(e, s) <==> x == e || x in s
  {
    if s != [] {
      InsertKeeps(e, s[1..], x);
      assert s == [s[0]] + s[1..];
    }
  }

  lemma {:induction false} SortKeeps(es: seq<Member>, x: Member)
    ensures x in Sort(es) <==> x in es
  {
    if es != [] {
      SortKeeps(es[1..], x);
      InsertKeeps(es[0], Sort(es[1..]), x);
      assert es == [es[0]] + es[1..];
    }
  }

  lemma {:induction false} SortLength(ms: seq<Member>)
    ensures |Sort(ms)| == |ms|
  {
    if ms != [] {
      SortLength(ms[1..]);
      InsertLength(ms[0], Sort(ms[1..]));
    }
  }

  lemma {:induction false} InsertLength(m: Member, s: seq<Member>)
    ensures |Insert(m, s)| == |s| + 1
  {
    if s != [] {
      InsertLength(m, s[1..]);
    }
  }

  // ----- sorting forgets exactly the order of keys --------------------------------------------

  lemma {:induction false} EquivSortsAlike(a: Json, b: Json)
    requires Equiv(a, b) && DictLike(a) && DictLike(b)
    ensures Sorted(a) == Sorted(b)
    decreases a, 1
  {
    match (a, b)
    case (Array(xs), Array(ys)) =>
      forall i | 0 <= i < |xs| ensures Sorted(xs[i]) == Sorted(ys[i]) {
        EquivSortsAlike(xs[i], ys[i]);
      }
      assert SortedItems(xs) == SortedItems(ys);
    case (Object(ms), Object(ns)) =>
      EquivMembersSortAlike(ms, ns);
    case _ =>
  }

  lemma {:induction false} EquivMembersSortAlike(ms: seq<Member>, ns: seq<Member>)
    requires EquivMembers(ms, ns) && DictLikeMembers(ms) && DictLikeMembers(ns)
    ensures Sort(SortedValues(ms)) == Sort(SortedValues(ns))
    decreases ms, 0
  {
    if ms == [] {
      assert ns == [];
    } else {
      var j := MatchHead(ms, ns);
      EquivSortsAlike(ms[0].value, ns[j].value);
      EquivMembersSortAlike(ms[1..], Without(ns, j));
      PulledOutSortsAlike(ns, j);
    }
  }

  lemma PulledOutSortsAlike(ns: seq<Member>, j: nat)
    requires j < |ns| && DistinctKeys(ns)
    ensures Sort(SortedValues(ns))
            == Insert(Member(ns[j].key, Sorted(ns[j].value)), Sort(SortedValues(Without(ns, j))))
  {
    SortedValuesKeepKeys(ns);
    SortPullsOut(SortedValues(ns), j);
    SortedValuesWithout(ns, j);
  }

  lemma SortedValuesKeepKeys(ns: seq<Member>)
    requires DistinctKeys(ns)
    ensures DistinctKeys(SortedValues(ns))
  {
  }

  lemma SortedValuesWithout(ns: seq<Member>, j: nat)
    requires j < |ns|
    ensures Without(SortedValues(ns), j) == SortedValues(Without(ns, j))
  {
    WithoutIs(ns, j, Without(ns, j));
    WithoutIs(SortedValues(ns), j, SortedValues(Without(ns, j)));
  }

  /** `rest` is `s` without its `j`-th element if and only if it is so position by position. */
  lemma WithoutIs(s: seq<Member>, j: nat, rest: seq<Member>)
    requires j < |s|
    ensures rest == Without(s, j)
            <==> |rest| == |s| - 1 && forall i :: 0 <= i < |rest| ==> rest[i] == s[if i < j then i else i + 1]
  {
  }

  lemma {:induction false} SortsAlikeEquiv(a: Json, b: Json)
    requires Sorted(a) == Sorted(b)
    ensures Equiv(a, b)
    decreases a
  {
    match (a, b)
    case (Array(xs), Array(ys)) =>
      assert |SortedItems(xs)| == |SortedItems(ys)|;
      forall i | 0 <= i < |xs| ensures Equiv(xs[i], ys[i]) {
        assert SortedItems(xs)[i] == SortedItems(ys)[i];
        SortsAlikeEquiv(xs[i], ys[i]);
      }
    case (Object(ms), Object(ns)) =>
      SortLength(SortedValues(ms));
      SortLength(SortedValues(ns));
      forall i | 0 <= i < |ms| ensures HasPartner(ms[i], ns) {
        var j := PartnerOf(ms, ns, i);
        SortsAlikeEquiv(ms[i].value, ns[j].value);
      }
    case _ =>
  }

  lemma PartnerOf(ms: seq<Member>, ns: seq<Member>, i: nat) returns (j: nat)
    requires Sort(SortedValues(ms)) == Sort(SortedValues(ns)) && i < |ms|
    ensures j < |ns| && ns[j].key == ms[i].key && Sorted(ns[j].value) == Sorted(ms[i].value)
  {
    var m := SortedValues(ms)[i];
    SortKeeps(SortedValues(ms), m);
    SortKeeps(SortedValues(ns), m);
    j :| 0 <= j < |SortedValues(ns)| && SortedValues(ns)[j] == m;
  }

  /** Dicts sort alike if and only if they are equal up to the order of keys, at every depth. */
  lemma SortedIffEquiv(a: Json, b: Json)
    requires DictLike(a) && DictLike(b)
    ensures Sorted(a) == Sorted(b) <==> Equiv(a, b)
  {
    if Sorted(a) == Sorted(b) {
      SortsAlikeEquiv(a, b);
    } else if Equiv(a, b) {
      EquivSortsAlike(a, b);
    }
  }

  /** Reordering keys at any depth never changes the serialisation. */
  lemma EquivDumpsAlike(a: Json, b: Json)
    requires Equiv(a, b) && DictLike(a) && DictLike(b)
    ensures Dump(a) == Dump(b)
  {
    EquivSortsAlike(a, b);
  }

  // ----- values without split pairs -----------------------------------------------------------

  ghost predicate PairFreeValue(v: Json) {
    match v
    case Str(text) => PairFree(text)
    case Array(items) => forall i :: 0 <= i < |items| ==> PairFreeValue(items[i])
    case Object(ms) => PairFreeMembers(ms)
    case _ => true
  }

  ghost predicate PairFreeMembers(ms: seq<Member>) {
    forall i :: 0 <= i < |ms| ==> PairFree(ms[i].key) && PairFreeValue(ms[i].value)
  }

  lemma {:induction false} MergedIsSame(v: Json)
    requires PairFreeValue(v)
    ensures Merged(v) == v
    decreases v
  {
    match v
    case Str(text) =>
      MergeIsSame(text);
    case Array(items) =>
      forall i | 0 <= i < |items| ensures Merged(items[i]) == items[i] { MergedIsSame(items[i]); }
      assert MergedItems(items) == items;
    case Object(ms) =>
      forall i | 0 <= i < |ms| ensures MergedMembers(ms)[i] == ms[i] {
        MergedIsSame(ms[i].value);
        MergeIsSame(ms[i].key);
      }
      assert MergedMembers(ms) == ms;
    case _ =>
  }

  lemma {:induction false} SortedIsPairFree(v: Json)
    requires PairFreeValue(v)
    ensures PairFreeValue(Sorted(v))
    decreases v
  {
    match v
    case Array(items) =>
      forall i | 0 <= i < |items| ensures PairFreeValue(Sorted(items[i])) { SortedIsPairFree(items[i]); }
    case Object(ms) =>
      forall i | 0 <= i < |ms| ensures PairFreeValue(Sorted(ms[i].value)) { SortedIsPairFree(ms[i].value); }
      SortIsPairFree(SortedValues(ms));
    case _ =>
  }

  lemma SortIsPairFree(ms: seq<Member>)
    requires PairFreeMembers(ms)
    ensures PairFreeMembers(Sort(ms))
  {
    forall i | 0 <= i < |Sort(ms)| ensures PairFree(Sort(ms)[i].key) && PairFreeValue(Sort(ms)[i].value) {
      SortKeeps(ms, Sort(ms)[i]);
    }
  }

  /** On dicts without split pairs the serialisation tells apart everything except the order of keys. */
  lemma DumpIsCanonical(a: Json, b: Json)
    requires DictLike(a) && DictLike(b) && PairFreeValue(a) && PairFreeValue(b)
    ensures Dump(a) == Dump(b) <==> Equiv(a, b)
  {
    SortedIsPairFree(a);
    SortedIsPairFree(b);
    MergedIsSame(Sorted(a));
    MergedIsSame(Sorted(b));
    DumpIsExact(a, b);
    SortedIffEquiv(a, b);
  }
}
