/** The form of the canonical text: keys in the order of their code points, plain ASCII, and which escape a
    character gets. Together with `JsonParser.ParseUndoesDump` this leaves no choice in the text. */
module CanonicalForm {
  import opened Basics
  import opened JsonModel
  import opened JsonText
  import opened Canonical

  // ----- keys in order -----------------------------------------------------------------------------

  /** Not greater by code points: they differ first where `a` is smaller, or `a` is a prefix of `b`. */
  ghost predicate NotGreater(a: Text, b: Text) {
    exists k: nat :: DiffersAt(a, b, k) && (k == |a| || (k < |b| && a[k] < b[k]))
  }

  /** They agree on their first `k` characters, and not on one more. */
  ghost predicate DiffersAt(a: Text, b: Text, k: nat) {
    && k <= |a| && k <= |b| && (forall i :: 0 <= i < k ==> a[i] == b[i])
    && (k < |a| && k < |b| ==> a[k] != b[k])
  }

  lemma {:induction false} NotGreaterIff(a: Text, b: Text)
    ensures NotGreater(a, b) <==> !Before(b, a)
    decreases |a|
  {
    if a == [] {
      assert DiffersAt(a, b, 0);
    } else if b == [] {
      assert forall k: nat :: DiffersAt(a, b, k) ==> k == 0;
    } else if a[0] != b[0] {
      assert forall k: nat :: DiffersAt(a, b, k) ==> k == 0;
      assert DiffersAt(a, b, 0);
    } else {
      NotGreaterIff(a[1..], b[1..]);
      if k: nat :| DiffersAt(a, b, k) && (k == |a| || (k < |b| && a[k] < b[k])) {
        assert DiffersAt(a[1..], b[1..], k - 1);
      }
      if k: nat :| DiffersAt(a[1..], b[1..], k) && (k == |a[1..]| || (k < |b[1..]| && a[1..][k] < b[1..][k])) {
        assert forall i :: 0 < i < k + 1 ==> a[i] == a[1..][i - 1] && b[i] == b[1..][i - 1];
        assert DiffersAt(a, b, k + 1);
      }
    }
  }

  ghost predicate InOrder(ms: seq<Member>) {
    forall i, j :: 0 <= i < j < |ms| ==> NotGreater(ms[i].key, ms[j].key)
  }

  /** The members of every object stand in the order of their keys. */
  ghost predicate KeysInOrder(v: Json) {
    match v
    case Array(items) => forall i :: 0 <= i < |items| ==> KeysInOrder(items[i])
    case Object(ms) => InOrder(ms) && forall i :: 0 <= i < |ms| ==> KeysInOrder(ms[i].value)
    case _ => true
  }

  lemma OrderTransitive(a: Text, b: Text, c: Text)
    requires NotGreater(a, b) && NotGreater(b, c)
    ensures NotGreater(a, c)
  {
    NotGreaterIff(a, b);
    NotGreaterIff(b, c);
    NotGreaterIff(a, c);
    BeforeTotal(a, b);
    BeforeTotal(b, c);
    if Before(c, a) {
      if Before(a, b) {
        BeforeTransitive(c, a, b);
      }
    }
  }

  lemma {:induction false} InsertInOrder(m: Member, s: seq<Member>)
    requires InOrder(s)
    ensures InOrder(Insert(m, s))
  {
    if s != [] {
      var head, rest := s[0], s[1..];
      NotGreaterIff(m.key, head.key);
      NotGreaterIff(head.key, m.key);
      BeforeTotal(m.key, head.key);
      if Before(m.key, head.key) {
        forall i | 0 <= i < |s| ensures NotGreater(m.key, s[i].key) {
          if i > 0 {
            OrderTransitive(m.key, head.key, s[i].key);
          }
        }
        ConsInOrder(m, s);
      } else {
        InsertInOrder(m, rest);
        forall i | 0 <= i < |Insert(m, rest)| ensures NotGreater(head.key, Insert(m, rest)[i].key) {
          InsertKeeps(m, rest, Insert(m, rest)[i]);
        }
        ConsInOrder(head, Insert(m, rest));
      }
    }
  }

  lemma ConsInOrder(m: Member, s: seq<Member>)
    requires InOrder(s) && forall i :: 0 <= i < |s| ==> NotGreater(m.key, s[i].key)
    ensures InOrder([m] + s)
  {
  }

  lemma {:induction false} SortInOrder(ms: seq<Member>)
    ensures InOrder(Sort(ms))
  {
    if ms != [] {
      SortInOrder(ms[1..]);
      InsertInOrder(ms[0], Sort(ms[1..]));
    }
  }

  lemma {:induction false} InsertAdds(m: Member, s: seq<Member>)
    ensures multiset(Insert(m, s)) == multiset(s) + multiset{m}
  {
    if s != [] {
      if !Before(m.key, s[0].key) {
        InsertAdds(m, s[1..]);
      }
      assert s == [s[0]] + s[1..];
    }
  }

  /** Sorting only reorders. */
  lemma {:induction false} SortPermutes(ms: seq<Member>)
    ensures multiset(Sort(ms)) == multiset(ms)
  {
    if ms != [] {
      SortPermutes(ms[1..]);
      InsertAdds(ms[0], Sort(ms[1..]));
      assert ms == [ms[0]] + ms[1..];
    }
  }

  /** What is printed has its keys in order, at every depth. */
  lemma {:induction false} SortedIsInOrder(v: Json)
    ensures KeysInOrder(Sorted(v))
    decreases v
  {
    match v
    case Array(items) =>
      forall i | 0 <= i < |items| ensures KeysInOrder(Sorted(items[i])) {
        SortedIsInOrder(items[i]);
      }
    case Object(ms) =>
      SortInOrder(SortedValues(ms));
      forall i | 0 <= i < |Sort(SortedValues(ms))| ensures KeysInOrder(Sort(SortedValues(ms))[i].value) {
        SortKeeps(SortedValues(ms), Sort(SortedValues(ms))[i]);
        var j :| 0 <= j < |ms| && SortedValues(ms)[j] == Sort(SortedValues(ms))[i];
        SortedIsInOrder(ms[j].value);
      }
    case _ =>
  }

  // ----- escapes -----------------------------------------------------------------------------------

  predicate HexLower(c: CodePoint) {
    '0' as int <= c <= '9' as int || 'a' as int <= c <= 'f' as int
  }

  lemma {:induction false} HexIsLower(n: nat, width: nat)
    ensures forall i :: 0 <= i < width ==> HexLower(Hex(n, width)[i])
  {
    if width > 0 {
      HexIsLower(n / 16, width - 1);
    }
  }

  /** Printable ASCII stands for itself; quotation mark, backslash and five control characters have a short
      escape; every other unit has four hexadecimal digits in lower case. */
  lemma EscapeIs(u: CodeUnit)
    ensures var e := EscapeUnit(u);
            var short := [34, 92, 8, 12, 10, 13, 9];
            && (|e| == 1 <==> ' ' as int <= u <= '~' as int && u !in short) && (|e| == 1 ==> e == [u])
            && (|e| == 2 <==> u in short) && (|e| == 2 ==> e[0] == '\\' as int)
            && (|e| == 1 || |e| == 2 || |e| == 6)
            && (|e| == 6 ==> && e[0] == '\\' as int && e[1] == 'u' as int
                             && forall i :: 2 <= i < 6 ==> HexLower(e[i]))
  {
    HexIsLower(u, 4);
  }

  predicate Ascii(t: Text) { forall i :: 0 <= i < |t| ==> 32 <= t[i] < 127 }

  lemma AsciiConcat(a: Text, b: Text)
    requires Ascii(a) && Ascii(b)
    ensures Ascii(a + b)
  {
  }

  lemma {:induction false} EscapesAreAscii(us: seq<CodeUnit>)
    ensures Ascii(EscapeUnits(us))
  {
    if us != [] {
      EscapeIs(us[0]);
      EscapesAreAscii(us[1..]);
      AsciiConcat(EscapeUnit(us[0]), EscapeUnits(us[1..]));
    }
  }

  lemma QuotedIsAscii(t: Text)
    ensures Ascii(Quoted(t))
  {
    EscapesAreAscii(Units(t));
  }

  lemma {:induction false} SequelIsAscii(parts: seq<Text>, close: CodePoint)
    requires (close == CLOSE_BRACKET || close == CLOSE_BRACE) && forall i :: 0 <= i < |parts| ==> Ascii(parts[i])
    ensures Ascii(Sequel(parts, close))
  {
    if parts != [] {
      SequelIsAscii(parts[1..], close);
      AsciiConcat(parts[0], Sequel(parts[1..], close));
    }
  }

  lemma ScalarIsAscii(v: Json)
    requires Scalar(v)
    ensures Ascii(Print(v))
  {
    match v
    case Null =>
    case Bool(_) =>
    case Int(n) => IntToken(n);
    case Float(repr) =>
      forall i | 0 <= i < |repr| ensures 32 <= repr[i] < 127 {
        assert repr[i] in repr;
      }
  }

  /** The text is plain ASCII: printable characters only. */
  lemma {:induction false} PrintIsAscii(v: Json)
    ensures Ascii(Print(v))
    decreases v
  {
    match v
    case Str(t) => QuotedIsAscii(t);
    case Array(items) =>
      forall i | 0 <= i < |items| ensures Ascii(ItemTexts(items)[i]) {
        PrintIsAscii(items[i]);
      }
      EnclosedIsAscii(OPEN_BRACKET, ItemTexts(items), CLOSE_BRACKET);
    case Object(ms) =>
      forall i | 0 <= i < |ms| ensures Ascii(EntryTexts(ms)[i]) {
        PrintIsAscii(ms[i].value);
        QuotedIsAscii(ms[i].key);
      }
      EnclosedIsAscii(OPEN_BRACE, EntryTexts(ms), CLOSE_BRACE);
    case _ => ScalarIsAscii(v);
  }

  lemma EnclosedIsAscii(open: CodePoint, parts: seq<Text>, close: CodePoint)
    requires open == OPEN_BRACKET || open == OPEN_BRACE
    requires (close == CLOSE_BRACKET || close == CLOSE_BRACE) && forall i :: 0 <= i < |parts| ==> Ascii(parts[i])
    ensures Ascii(Enclosed(open, parts, close))
  {
    if parts != [] {
      SequelIsAscii(parts[1..], close);
      AsciiConcat(parts[0], Sequel(parts[1..], close));
    }
  }

  // ----- punctuation -------------------------------------------------------------------------------

  /** The parts with a comma, and nothing else, between them. */
  function Joined(parts: seq<Text>): Text {
    if parts == [] then [] else if |parts| == 1 then parts[0] else parts[0] + [',' as int] + Joined(parts[1..])
  }

  lemma {:induction false} SequelJoins(parts: seq<Text>, close: CodePoint)
    requires parts != []
    ensures parts[0] + Sequel(parts[1..], close) == Joined(parts) + [close]
  {
    if |parts| > 1 {
      var rest := parts[1..];
      SequelJoins(rest, close);
      assert Sequel(rest, close) == [',' as int] + (rest[0] + Sequel(rest[1..], close));
      JoinedNext(parts[0], Joined(rest), close);
    }
  }

  lemma JoinedNext(a: Text, b: Text, close: CodePoint)
    ensures a + ([',' as int] + (b + [close])) == a + [',' as int] + b + [close]
  {
  }

  lemma EnclosedJoins(open: CodePoint, parts: seq<Text>, close: CodePoint)
    ensures Enclosed(open, parts, close) == [open] + (Joined(parts) + [close])
  {
    if parts != [] {
      SequelJoins(parts, close);
    }
  }

  /** Separators are compact: a comma between items, a colon between a key in quotation marks and its value. */
  lemma PrintIsCompact(items: seq<Json>, ms: seq<Member>)
    ensures Print(Array(items)) == ['[' as int] + (Joined(ItemTexts(items)) + [']' as int])
    ensures Print(Object(ms)) == ['{' as int] + (Joined(EntryTexts(ms)) + ['}' as int])
    ensures forall i :: 0 <= i < |ms| ==> EntryTexts(ms)[i] == EntryForm(ms[i].key, Print(ms[i].value))
  {
    EnclosedJoins(OPEN_BRACKET, ItemTexts(items), CLOSE_BRACKET);
    EnclosedJoins(OPEN_BRACE, EntryTexts(ms), CLOSE_BRACE);
    forall i | 0 <= i < |ms| ensures EntryTexts(ms)[i] == EntryForm(ms[i].key, Print(ms[i].value)) {
      EntryIsCompact(ms[i].key, Print(ms[i].value));
    }
  }

  function EntryForm(key: Text, body: Text): Text {
    ['"' as int] + EscapeUnits(Units(key)) + ['"' as int, ':' as int] + body
  }

  lemma EntryIsCompact(key: Text, body: Text)
    ensures EntryText(key, body) == EntryForm(key, body)
  {
    var open: Text := ['"' as int] + EscapeUnits(Units(key));
    assert Quoted(key) == open + ['"' as int];
    assert (open + ['"' as int]) + [':' as int] == open + ['"' as int, ':' as int];
  }
}
