/** Reading JSON text back, as `json.loads` with an `object_pairs_hook` does (RFC 8259, sections 3 to 7), without
    white space, which the canonical text has none of. Two escaped surrogates that make a pair are read as one
    character. A parser of its own: it shares nothing with the printer but the values. */
module JsonParser {
  import opened Basics
  import opened JsonModel
  import opened JsonText
  import opened Canonical

  datatype Reading<+T> = Got(value: T, rest: Text) | Bad

  // ----- strings -----------------------------------------------------------------------------------

  function HexValue(c: CodePoint): Option<nat> {
    if '0' as int <= c <= '9' as int then Some(c - '0' as int)
    else if 'a' as int <= c <= 'f' as int then Some(c - 'a' as int + 10)
    else if 'A' as int <= c <= 'F' as int then Some(c - 'A' as int + 10)
    else None
  }

  /** The number these hexadecimal digits denote. */
  function HexNumber(t: Text): Option<nat> {
    if t == [] then Some(0) else
      match (HexNumber(t[..|t| - 1]), HexValue(t[|t| - 1]))
      case (Some(high), Some(low)) => Some(16 * high + low)
      case _ => None
  }

  /** One character, or one escape. */
  function ReadChar(s: Text): (r: Reading<CodePoint>)
    ensures r.Got? ==> |r.rest| < |s|
  {
    if s == [] || s[0] == '"' as int then Bad
    else if s[0] != '\\' as int then Got(s[0], s[1..])
    else if |s| < 2 then Bad
    else if s[1] in [34, 92, 47] then Got(s[1], s[2..])
    else if s[1] == 'b' as int then Got(8, s[2..])
    else if s[1] == 'f' as int then Got(12, s[2..])
    else if s[1] == 'n' as int then Got(10, s[2..])
    else if s[1] == 'r' as int then Got(13, s[2..])
    else if s[1] == 't' as int then Got(9, s[2..])
    else if s[1] != 'u' as int || |s| < 6 then Bad
    else
      match HexNumber(s[2..6])
      case Some(n) => if n < 0x10000 then Got(n, s[6..]) else Bad
      case None => Bad
  }

  /** The characters up to the closing quotation mark. */
  function ReadText(s: Text): (r: Reading<Text>)
    ensures r.Got? ==> |r.rest| < |s|
    decreases |s|
  {
    if s == [] then Bad
    else if s[0] == '"' as int then Got([], s[1..])
    else
      var first := ReadChar(s);
      if first.Bad? then Bad else
        var second := ReadChar(first.rest);
        if 0xD800 <= first.value < 0xDC00 && second.Got? && 0xDC00 <= second.value < 0xE000 then
          var more := ReadText(second.rest);
          if more.Bad? then Bad
          else Got([0x10000 + (first.value - 0xD800) * 0x400 + (second.value - 0xDC00)] + more.value, more.rest)
        else
          var more := ReadText(first.rest);
          if more.Bad? then Bad else Got([first.value] + more.value, more.rest)
  }

  // ----- the other scalars -------------------------------------------------------------------------

  predicate Delimiter(c: CodePoint) { c in [34, 44, 58, 91, 93, 123, 125] }

  /** The characters before the next delimiter. */
  function Token(s: Text): (t: Text)
    ensures t <= s
  {
    if s == [] || Delimiter(s[0]) then [] else [s[0]] + Token(s[1..])
  }

  predicate Digits(t: Text) { t != [] && forall i :: 0 <= i < |t| ==> '0' as int <= t[i] <= '9' as int }

  function ScalarOf(t: Text): Option<Json> {
    if t == Lit("null") then Some(Null)
    else if t == Lit("true") then Some(Bool(true))
    else if t == Lit("false") then Some(Bool(false))
    else if Digits(t) then Some(Int(DecimalValue(t)))
    else if t != [] && t[0] == '-' as int && Digits(t[1..]) then Some(Int(-DecimalValue(t[1..])))
    else if IsFloatRepr(t) then Some(Float(t))
    else None
  }

  // ----- values ------------------------------------------------------------------------------------

  function ReadValue(s: Text): (r: Reading<Json>)
    ensures r.Got? ==> |r.rest| < |s|
    decreases |s|, 1
  {
    if s == [] then Bad
    else if s[0] == '"' as int then
      match ReadText(s[1..]) case Got(t, rest) => Got(Str(t), rest) case Bad => Bad
    else if s[0] == '[' as int then
      if |s| > 1 && s[1] == ']' as int then Got(Array([]), s[2..]) else
        match ReadItems(s[1..]) case Got(items, rest) => Got(Array(items), rest) case Bad => Bad
    else if s[0] == '{' as int then
      if |s| > 1 && s[1] == '}' as int then Got(Object([]), s[2..]) else
        match ReadMembers(s[1..]) case Got(ms, rest) => Got(Object(ms), rest) case Bad => Bad
    else
      var t := Token(s);
      match ScalarOf(t) case Some(v) => if t == [] then Bad else Got(v, s[|t|..]) case None => Bad
  }

  /** One element, then the closing bracket, or a comma and the rest. */
  function ReadItems(s: Text): (r: Reading<seq<Json>>)
    ensures r.Got? ==> |r.rest| < |s|
    decreases |s|, 2
  {
    match ReadValue(s)
    case Bad => Bad
    case Got(v, rest) =>
      if rest == [] then Bad
      else if rest[0] == ']' as int then Got([v], rest[1..])
      else if rest[0] != ',' as int then Bad
      else match ReadItems(rest[1..]) case Got(items, end) => Got([v] + items, end) case Bad => Bad
  }

  /** A key, a colon and a value, then the closing brace, or a comma and the rest. */
  function ReadMembers(s: Text): (r: Reading<seq<Member>>)
    ensures r.Got? ==> |r.rest| < |s|
    decreases |s|, 2
  {
    match ReadMember(s)
    case Bad => Bad
    case Got(m, rest) =>
      if rest == [] then Bad
      else if rest[0] == '}' as int then Got([m], rest[1..])
      else if rest[0] != ',' as int then Bad
      else match ReadMembers(rest[1..]) case Got(ms, end) => Got([m] + ms, end) case Bad => Bad
  }

  function ReadMember(s: Text): (r: Reading<Member>)
    ensures r.Got? ==> |r.rest| < |s|
    decreases |s|, 1
  {
    if s == [] || s[0] != '"' as int then Bad else
      match ReadText(s[1..])
      case Bad => Bad
      case Got(key, rest) =>
        if rest == [] || rest[0] != ':' as int then Bad else
          match ReadValue(rest[1..]) case Got(v, end) => Got(Member(key, v), end) case Bad => Bad
  }

  /** A whole text. */
  function Parse(s: Text): Option<Json> {
    match ReadValue(s) case Got(v, rest) => if rest == [] then Some(v) else None case Bad => None
  }

  // ----- reading undoes printing ---------------------------------------------------------------------

  lemma {:induction false} HexReads(n: nat, width: nat)
    requires n < Pow16(width)
    ensures HexNumber(Hex(n, width)) == Some(n)
  {
    if width > 0 {
      HexReads(n / 16, width - 1);
      assert Hex(n, width)[..width - 1] == Hex(n / 16, width - 1);
    }
  }

  /** One printed code unit is read back. */
  lemma UnitReads(u: CodeUnit, x: Text)
    ensures ReadChar(EscapeUnit(u) + x) == Got(u, x)
  {
    var e := EscapeUnit(u);
    var s := e + x;
    assert s[|e|..] == x;
    if |e| == 6 {
      assert Pow16(4) == 0x10000;
      HexReads(u, 4);
      assert s[2..6] == Hex(u, 4);
    }
  }

  lemma ReadsPair(s: Text, a: CodePoint, r: Text, b: CodePoint, q: Text, m: Text, x: Text)
    requires ReadChar(s) == Got(a, r) && ReadChar(r) == Got(b, q) && SplitPair(a, b) && ReadText(q) == Got(m, x)
    ensures ReadText(s) == Got([Joined(a, b)] + m, x)
  {
  }

  lemma ReadsOne(s: Text, a: CodePoint, r: Text, m: Text, x: Text)
    requires ReadChar(s) == Got(a, r) && ReadText(r) == Got(m, x)
    requires ReadChar(r).Got? ==> !SplitPair(a, ReadChar(r).value)
    ensures ReadText(s) == Got([a] + m, x)
  {
  }

  lemma {:induction false} UnitsRead(us: seq<CodeUnit>, x: Text)
    ensures ReadText(EscapeUnits(us) + ([QUOTE] + x)) == Got(Merge(us), x)
    decreases |us|
  {
    var tail := [QUOTE] + x;
    if us == [] {
      assert EscapeUnits(us) + tail == tail && tail[1..] == x;
    } else {
      var s, rest := EscapeUnits(us) + tail, EscapeUnits(us[1..]) + tail;
      EscapeHead(us, tail);
      UnitReads(us[0], rest);
      if |us| >= 2 && SplitPair(us[0], us[1]) {
        EscapeHead(us[1..], tail);
        assert us[1..][1..] == us[2..];
        UnitReads(us[1], EscapeUnits(us[2..]) + tail);
        UnitsRead(us[2..], x);
        ReadsPair(s, us[0], rest, us[1], EscapeUnits(us[2..]) + tail, Merge(us[2..]), x);
      } else {
        UnitsRead(us[1..], x);
        NextReads(us, tail);
        ReadsOne(s, us[0], rest, Merge(us[1..]), x);
      }
    }
  }

  /** What comes after the first unit is the second one, or the end. */
  lemma NextReads(us: seq<CodeUnit>, tail: Text)
    requires us != [] && tail != [] && tail[0] == QUOTE
    ensures var next := ReadChar(EscapeUnits(us[1..]) + tail);
            if |us| == 1 then next.Bad? else next.Got? && next.value == us[1]
  {
    if |us| == 1 {
      assert EscapeUnits(us[1..]) + tail == tail;
    } else {
      EscapeHead(us[1..], tail);
      UnitReads(us[1], EscapeUnits(us[1..][1..]) + tail);
    }
  }

  lemma {:induction false} UnitsStay(us: seq<CodeUnit>)
    ensures Units(us) == us
  {
    if us != [] {
      UnitsStay(us[1..]);
      assert us == [us[0]] + us[1..];
    }
  }

  /** A printed text is read back with its split pairs joined. */
  lemma TextReads(t: Text, x: Text)
    ensures (Quoted(t) + x)[0] == QUOTE && ReadText((Quoted(t) + x)[1..]) == Got(Merge(t), x)
  {
    QuotedTail(t, x);
    UnitsRead(Units(t), x);
    UnitsStay(Units(t));
    TextsPrintAlike(Units(t), t);
  }

  /** A token ends where a delimiter follows. */
  lemma {:induction false} TokenReads(t: Text, x: Text)
    requires (forall c :: c in t ==> TokenChar(c)) && Boundary(x)
    ensures Token(t + x) == t
  {
    if t == [] {
      assert t + x == x;
    } else {
      assert (t + x)[1..] == t[1..] + x && t[0] in t;
      assert forall c :: c in t[1..] ==> c in t;
      TokenReads(t[1..], x);
    }
  }

  /** A token that starts with a digit or a minus sign is no literal. */
  lemma NumberToken(t: Text)
    requires t != [] && (48 <= t[0] <= 57 || t[0] == 45)
    ensures t != Lit("null") && t != Lit("true") && t != Lit("false")
  {
    LiteralsStart();
  }

  lemma IntReads(n: int)
    ensures ScalarOf(Print(Int(n))) == Some(Int(n))
  {
    var t := Print(Int(n));
    if n >= 0 {
      DecimalRoundTrip(n);
      assert 48 <= t[0] <= 57;
    } else {
      DecimalRoundTrip(-n);
      assert t[1..] == Decimal(-n) && t[0] == 45;
    }
    NumberToken(t);
  }

  lemma LiteralsStart()
    ensures Lit("null")[0] == 110 && Lit("true")[0] == 116 && Lit("false")[0] == 102
  {
  }

  lemma FloatReads(t: FloatRepr)
    ensures ScalarOf(t) == Some(Float(t))
  {
    FirstChar(Float(t));
    FloatToken(t);
    LiteralsStart();
    var i := FloatHasMark(t);
    assert !Digits(t);
    if i > 0 {
      assert t[i] == t[1..][i - 1];
    }
  }

  lemma ScalarOfPrint(v: Json)
    requires Scalar(v)
    ensures ScalarOf(Print(v)) == Some(v)
  {
    if v.Int? {
      IntReads(v.n);
    } else if v.Float? {
      FloatReads(v.repr);
    } else {
      LiteralsStart();
    }
  }

  lemma ReadsScalar(s: Text, t: Text, x: Text, v: Json)
    requires t != [] && s == t + x && TokenChar(t[0]) && Token(s) == t && ScalarOf(t) == Some(v)
    ensures ReadValue(s) == Got(v, x)
  {
    assert s[0] == t[0] && s[|t|..] == x;
  }

  lemma ScalarReads(v: Json, x: Text)
    requires Scalar(v) && Boundary(x)
    ensures ReadValue(Print(v) + x) == Got(v, x)
  {
    var t := Print(v);
    ScalarToken(v);
    TokenReads(t, x);
    assert t[0] in t;
    ScalarOfPrint(v);
    ReadsScalar(t + x, t, x, v);
  }

  lemma SequelBoundary(parts: seq<Text>, close: CodePoint, x: Text)
    requires close == CLOSE_BRACKET || close == CLOSE_BRACE
    ensures Boundary(Sequel(parts, close) + x)
  {
    SequelHead(parts, x, close);
  }

  /** Every printed value is read back, whatever follows that can follow a value, with its split pairs joined. */
  lemma {:induction false} ValueReads(v: Json, x: Text)
    requires Boundary(x)
    ensures ReadValue(Print(v) + x) == Got(Merged(v), x)
    decreases v, 2
  {
    match v
    case Str(t) => TextReads(t, x);
    case Array(items) => ArrayReads(items, x);
    case Object(ms) => ObjectReads(ms, x);
    case _ => ScalarReads(v, x);
  }

  lemma {:induction false} ArrayReads(items: seq<Json>, x: Text)
    requires Boundary(x)
    ensures ReadValue(Print(Array(items)) + x) == Got(Array(MergedItems(items)), x)
    decreases items, 1
  {
    var s := Print(Array(items)) + x;
    if items == [] {
      assert s[2..] == x;
    } else {
      forall i | 0 <= i < |items| ensures ItemTexts(items)[i] != [] && ItemTexts(items)[i][0] != CLOSE_BRACKET {
        PrintStart(items[i]);
      }
      EnclosedParts(OPEN_BRACKET, ItemTexts(items), x, CLOSE_BRACKET);
      assert ItemTexts(items)[1..] == ItemTexts(items[1..]);
      ItemsRead(items, x);
    }
  }

  lemma {:induction false} ItemsRead(items: seq<Json>, x: Text)
    requires Boundary(x) && items != []
    ensures ReadItems(Print(items[0]) + (Sequel(ItemTexts(items[1..]), CLOSE_BRACKET) + x))
            == Got(MergedItems(items), x)
    decreases items, 0
  {
    var rest := items[1..];
    SequelHead(ItemTexts(rest), x, CLOSE_BRACKET);
    SequelBoundary(ItemTexts(rest), CLOSE_BRACKET, x);
    ValueReads(items[0], Sequel(ItemTexts(rest), CLOSE_BRACKET) + x);
    if rest == [] {
      assert MergedItems(items) == [Merged(items[0])];
    } else {
      ItemsRead(rest, x);
      assert ItemTexts(rest)[1..] == ItemTexts(rest[1..]);
    }
  }

  lemma {:induction false} MemberReads(m: Member, x: Text)
    requires Boundary(x)
    ensures ReadMember(EntryText(m.key, Print(m.value)) + x) == Got(Member(Merge(m.key), Merged(m.value)), x)
    decreases m, 1
  {
    EntryConcat(m.key, Print(m.value), x);
    var after := [COLON] + (Print(m.value) + x);
    TextReads(m.key, after);
    assert after[1..] == Print(m.value) + x;
    ValueReads(m.value, x);
  }

  lemma ReadsMembers(s: Text, ms: seq<Member>, x: Text)
    requires |s| > 1 && s[0] == OPEN_BRACE && s[1] != CLOSE_BRACE && ReadMembers(s[1..]) == Got(ms, x)
    ensures ReadValue(s) == Got(Object(ms), x)
  {
  }

  lemma EntriesBegin(ms: seq<Member>, x: Text)
    requires ms != []
    ensures
      var s := Enclosed(OPEN_BRACE, EntryTexts(ms), CLOSE_BRACE) + x;
      && |s| > 1 && s[0] == OPEN_BRACE && s[1] != CLOSE_BRACE
      && s[1..] == EntryText(ms[0].key, Print(ms[0].value)) + (Sequel(EntryTexts(ms[1..]), CLOSE_BRACE) + x)
  {
    var parts := EntryTexts(ms);
    forall i | 0 <= i < |parts| ensures parts[i] != [] && parts[i][0] != CLOSE_BRACE {
      assert parts[i] == EntryText(ms[i].key, Print(ms[i].value));
      assert parts[i][0] == QUOTE;
    }
    EnclosedParts(OPEN_BRACE, parts, x, CLOSE_BRACE);
    assert parts[1..] == EntryTexts(ms[1..]);
  }

  lemma {:induction false} ObjectReads(ms: seq<Member>, x: Text)
    requires Boundary(x)
    ensures ReadValue(Print(Object(ms)) + x) == Got(Object(MergedMembers(ms)), x)
    decreases ms, 1
  {
    var s := Print(Object(ms)) + x;
    if ms == [] {
      assert s[2..] == x;
    } else {
      EntriesBegin(ms, x);
      MembersRead(ms, x);
      ReadsMembers(s, MergedMembers(ms), x);
    }
  }

  lemma ReadsOneMore(s: Text, m: Member, rest: Text, ms: seq<Member>, x: Text)
    requires ReadMember(s) == Got(m, rest) && rest != [] && rest[0] == COMMA && ReadMembers(rest[1..]) == Got(ms, x)
    ensures ReadMembers(s) == Got([m] + ms, x)
  {
  }

  lemma {:induction false} MembersRead(ms: seq<Member>, x: Text)
    requires Boundary(x) && ms != []
    ensures ReadMembers(EntryText(ms[0].key, Print(ms[0].value)) + (Sequel(EntryTexts(ms[1..]), CLOSE_BRACE) + x))
            == Got(MergedMembers(ms), x)
    decreases ms, 0
  {
    var rest, m := ms[1..], Member(Merge(ms[0].key), Merged(ms[0].value));
    var s, tail := EntryText(ms[0].key, Print(ms[0].value)), Sequel(EntryTexts(rest), CLOSE_BRACE) + x;
    SequelHead(EntryTexts(rest), x, CLOSE_BRACE);
    SequelBoundary(EntryTexts(rest), CLOSE_BRACE, x);
    MemberReads(ms[0], tail);
    if rest == [] {
      assert MergedMembers(ms) == [m];
    } else {
      MembersRead(rest, x);
      assert EntryTexts(rest)[1..] == EntryTexts(rest[1..]);
      ReadsOneMore(s + tail, m, tail, MergedMembers(rest), x);
    }
  }

  /** Parsing undoes canonical serialisation up to key order and split surrogate pairs: for all values, the
      text parses to the value with the members of every object sorted and split pairs joined. */
  lemma ParseUndoesDump(v: Json)
    ensures Parse(Dump(v)) == Some(Merged(Sorted(v)))
  {
    ValueReads(Sorted(v), []);
    assert Print(Sorted(v)) + [] == Print(Sorted(v));
  }
}
