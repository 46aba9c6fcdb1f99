/** How `json.dumps` prints text: every character outside printable ASCII is escaped as its UTF-16
    code units (section 7 of RFC 8259). The bytes are ASCII and are written as text. */
module JsonText {
  import opened Basics

  const QUOTE: CodePoint := 34
  const BACKSLASH: CodePoint := 92

  // ----- strings ---------------------------------------------------------------------------

  type CodeUnit = u: int | 0 <= u < 0x10000

  /** UTF-16: an astral code point becomes a surrogate pair, every other one stands for itself. */
  function Units(t: Text): seq<CodeUnit> {
    if t == [] then [] else CodePointUnits(t[0]) + Units(t[1..])
  }

  function CodePointUnits(c: CodePoint): seq<CodeUnit> {
    if c < 0x10000 then [c] else [0xD800 + (c - 0x10000) / 0x400, 0xDC00 + (c - 0x10000) % 0x400]
  }

  function HexDigit(d: int): CodePoint
    requires 0 <= d < 16
  {
    if d < 10 then 48 + d else 87 + d
  }

  /** The last `width` hexadecimal digits of `n`. */
  function Hex(n: nat, width: nat): (t: Text)
    ensures |t| == width
  {
    if width == 0 then [] else Hex(n / 16, width - 1) + [HexDigit(n % 16)]
  }

  function EscapeUnit(u: CodeUnit): (t: Text)
    ensures t != [] && t[0] != QUOTE
  {
    if u == 34 then [BACKSLASH, QUOTE]
    else if u == 92 then [BACKSLASH, BACKSLASH]
    else if u == 8 then [BACKSLASH, 98]
    else if u == 12 then [BACKSLASH, 102]
    else if u == 10 then [BACKSLASH, 110]
    else if u == 13 then [BACKSLASH, 114]
    else if u == 9 then [BACKSLASH, 116]
    else if 32 <= u <= 126 then [u]
    else [BACKSLASH, 117] + Hex(u, 4)
  }

  function EscapeUnits(us: seq<CodeUnit>): Text {
    if us == [] then [] else EscapeUnit(us[0]) + EscapeUnits(us[1..])
  }

  function Quoted(t: Text): Text { [QUOTE] + EscapeUnits(Units(t)) + [QUOTE] }

  // ----- split surrogate pairs ---------------------------------------------------------------

  /** A high surrogate directly followed by a low one. */
  predicate SplitPair(a: CodePoint, b: CodePoint) { 0xD800 <= a < 0xDC00 && 0xDC00 <= b < 0xE000 }

  /** No high surrogate is directly followed by a low one. Text decoded from UTF-8, or from JSON
      whose escapes have been read, is of this kind. */
  predicate PairFree(t: Text) {
    forall i :: 0 <= i < |t| - 1 ==> !SplitPair(t[i], t[i + 1])
  }

  // ----- strings: escaping loses nothing but split surrogate pairs --------------------------

  lemma {:induction false} HexInjective(m: nat, n: nat, width: nat)
    requires Hex(m, width) == Hex(n, width) && m < Pow16(width) && n < Pow16(width)
    ensures m == n
  {
    if width > 0 {
      assert Hex(m, width)[width - 1] == HexDigit(m % 16) && Hex(n, width)[width - 1] == HexDigit(n % 16);
      assert Hex(m / 16, width - 1) == Hex(m, width)[..width - 1] == Hex(n / 16, width - 1);
      HexInjective(m / 16, n / 16, width - 1);
    }
  }

  function Pow16(width: nat): nat { if width == 0 then 1 else 16 * Pow16(width - 1) }

  lemma EscapeUnitSplits(u: CodeUnit, x: Text, v: CodeUnit, y: Text)
    requires EscapeUnit(u) + x == EscapeUnit(v) + y
    ensures u == v && x == y
  {
    var e, f := EscapeUnit(u), EscapeUnit(v);
    var s := e + x;
    assert s[0] == e[0] == f[0];
    if e[0] == BACKSLASH {
      assert s[1] == e[1] == f[1];
    }
    assert |e| == |f| && e == s[..|e|] && f == s[..|e|];
    if |e| == 6 {
      assert Hex(u, 4) == e[2..] && Hex(v, 4) == f[2..];
      assert Pow16(4) == 0x10000;
      HexInjective(u, v, 4);
    }
    assert x == s[|e|..] && y == s[|e|..];
  }

  lemma EscapeHead(us: seq<CodeUnit>, z: Text)
    requires us != []
    ensures EscapeUnits(us) + z == EscapeUnit(us[0]) + (EscapeUnits(us[1..]) + z)
    ensures (EscapeUnits(us) + z)[0] != QUOTE
  {
    ConcatAssoc(EscapeUnit(us[0]), EscapeUnits(us[1..]), z);
  }

  lemma {:induction false} EscapeUnitsSplit(us: seq<CodeUnit>, x: Text, vs: seq<CodeUnit>, y: Text)
    requires EscapeUnits(us) + ([QUOTE] + x) == EscapeUnits(vs) + ([QUOTE] + y)
    ensures us == vs && x == y
  {
    var p, q := [QUOTE] + x, [QUOTE] + y;
    if us == [] && vs == [] {
      assert EscapeUnits(us) + p == p && EscapeUnits(vs) + q == q;
      assert x == p[1..] && y == q[1..];
    } else if us == [] {
      assert EscapeUnits(us) + p == p;
      EscapeHead(vs, q);
    } else if vs == [] {
      assert EscapeUnits(vs) + q == q;
      EscapeHead(us, p);
    } else {
      EscapeHead(us, p);
      EscapeHead(vs, q);
      EscapeUnitSplits(us[0], EscapeUnits(us[1..]) + p, vs[0], EscapeUnits(vs[1..]) + q);
      EscapeUnitsSplit(us[1..], x, vs[1..], y);
      assert us == [us[0]] + us[1..] && vs == [vs[0]] + vs[1..];
    }
  }

  /** Two texts print alike if and only if they are the same UTF-16. */
  lemma QuotedSplits(a: Text, x: Text, b: Text, y: Text)
    requires Quoted(a) + x == Quoted(b) + y
    ensures Units(a) == Units(b) && x == y
  {
    QuotedTail(a, x);
    QuotedTail(b, y);
    EscapeUnitsSplit(Units(a), x, Units(b), y);
  }

  lemma QuotedTail(a: Text, x: Text)
    ensures (Quoted(a) + x)[1..] == EscapeUnits(Units(a)) + ([QUOTE] + x)
  {
  }

  lemma CodePointUnitsInjective(c: CodePoint, d: CodePoint)
    requires CodePointUnits(c) == CodePointUnits(d)
    ensures c == d
  {
    var us := CodePointUnits(c);
    assert us[0] == CodePointUnits(d)[0];
    if |us| == 2 {
      assert us[1] == CodePointUnits(d)[1];
    }
  }

  lemma PairFreeTail(t: Text)
    requires PairFree(t) && t != []
    ensures PairFree(t[1..])
  {
    forall i | 0 <= i < |t[1..]| - 1
      ensures !SplitPair(t[1..][i], t[1..][i + 1])
    {
      assert t[1..][i] == t[i + 1] && t[1..][i + 1] == t[i + 1 + 1];
    }
  }

  lemma {:induction false} UnitsInjective(a: Text, b: Text)
    requires PairFree(a) && PairFree(b) && Units(a) == Units(b)
    ensures a == b
    decreases |a|
  {
    if a != [] && b != [] {
      if a[0] < 0x10000 <= b[0] {
        NoSplitPair(a, b);
      } else if b[0] < 0x10000 <= a[0] {
        NoSplitPair(b, a);
      } else {
        SplitConcat(CodePointUnits(a[0]), Units(a[1..]), CodePointUnits(b[0]), Units(b[1..]));
        CodePointUnitsInjective(a[0], b[0]);
        PairFreeTail(a);
        PairFreeTail(b);
        UnitsInjective(a[1..], b[1..]);
        assert a == [a[0]] + a[1..] && b == [b[0]] + b[1..];
      }
    }
  }

  /** A text that starts with a lone high surrogate does not print like one with an astral start. */
  lemma NoSplitPair(a: Text, b: Text)
    requires PairFree(a) && a != [] && b != [] && a[0] < 0x10000 <= b[0]
    ensures Units(a) != Units(b)
  {
    var us, vs, rest := Units(a), Units(b), a[1..];
    assert vs[0] == CodePointUnits(b[0])[0] && vs[1] == CodePointUnits(b[0])[1];
    assert us == [a[0]] + Units(rest);
    if rest != [] {
      assert Units(rest) == CodePointUnits(rest[0]) + Units(rest[1..]);
      assert us[1] == CodePointUnits(a[1])[0];
    } else {
      assert us == [a[0]];
    }
  }

  /** The condition on text is needed: an astral character and its surrogate pair print alike. */
  lemma SplitPairsPrintAlike(c: CodePoint)
    requires 0x10000 <= c
    ensures [c] != CodePointUnits(c) && Quoted([c]) == Quoted(CodePointUnits(c))
    ensures PairFree([c]) && !PairFree(CodePointUnits(c))
  {
    var p := CodePointUnits(c);
    assert Units([c]) == p + Units([]) == p;
    assert Units(p) == CodePointUnits(p[0]) + Units(p[1..]);
    assert Units(p[1..]) == CodePointUnits(p[1]) + Units(p[1..][1..]);
    assert Units(p) == p;
    assert 0xD800 <= p[0] < 0xDC00 && 0xDC00 <= p[1] < 0xE000;
  }

  /** The astral code point that a split pair stands for. */
  function Joined(a: CodePoint, b: CodePoint): (c: CodePoint)
    requires SplitPair(a, b)
    ensures 0x10000 <= c
  {
    0x10000 + (a - 0xD800) * 0x400 + (b - 0xDC00)
  }

  lemma JoinedUnits(a: CodePoint, b: CodePoint)
    requires SplitPair(a, b)
    ensures CodePointUnits(Joined(a, b)) == [a, b]
  {
  }

  /** The text with every split pair joined. */
  function Merge(t: Text): Text {
    if t == [] then []
    else if |t| >= 2 && SplitPair(t[0], t[1]) then [Joined(t[0], t[1])] + Merge(t[2..])
    else [t[0]] + Merge(t[1..])
  }

  lemma UnitsOfTwo(t: Text)
    requires |t| >= 2 && t[0] < 0x10000 && t[1] < 0x10000
    ensures Units(t) == [t[0], t[1]] + Units(t[2..])
  {
    var rest := t[1..];
    assert Units(rest) == CodePointUnits(rest[0]) + Units(rest[1..]);
    assert rest[1..] == t[2..];
  }

  /** What `Merge` keeps of a text: what is printed, and how it starts. */
  ghost predicate MergesTo(t: Text, m: Text) {
    && PairFree(m) && Units(m) == Units(t)
    && (if t == [] then m == [] else m != [] && (m[0] == t[0] || m[0] >= 0x10000))
  }

  lemma MergesPair(t: Text, m: Text)
    requires |t| >= 2 && SplitPair(t[0], t[1]) && MergesTo(t[2..], m)
    ensures MergesTo(t, [Joined(t[0], t[1])] + m)
  {
    UnitsOfTwo(t);
    JoinedUnits(t[0], t[1]);
    PairFreeCons(Joined(t[0], t[1]), m);
  }

  lemma MergesOne(t: Text, m: Text)
    requires t != [] && !(|t| >= 2 && SplitPair(t[0], t[1])) && MergesTo(t[1..], m)
    ensures MergesTo(t, [t[0]] + m)
  {
    assert |t| >= 2 ==> t[1..] != [] && t[1..][0] == t[1];
    PairFreeCons(t[0], m);
  }

  /** Joining leaves no split pair and does not change what is printed. */
  lemma {:induction false} MergeIsPairFree(t: Text)
    ensures MergesTo(t, Merge(t))
    decreases |t|
  {
    if t == [] {
    } else if |t| >= 2 && SplitPair(t[0], t[1]) {
      MergeIsPairFree(t[2..]);
      MergesPair(t, Merge(t[2..]));
    } else {
      MergeIsPairFree(t[1..]);
      MergesOne(t, Merge(t[1..]));
    }
  }

  lemma PairFreeCons(c: CodePoint, t: Text)
    requires PairFree(t) && (t != [] ==> !SplitPair(c, t[0]))
    ensures PairFree([c] + t) && Units([c] + t) == CodePointUnits(c) + Units(t)
  {
    var s := [c] + t;
    assert s[1..] == t;
    forall i | 0 <= i < |s| - 1 ensures !SplitPair(s[i], s[i + 1]) {
      assert i > 0 ==> s[i] == t[i - 1] && s[i + 1] == t[i];
    }
  }

  /** For all texts: two print alike if and only if they are the same once split pairs are joined.
      Among texts without split pairs each prints in its own way. */
  lemma TextsPrintAlike(a: Text, b: Text)
    ensures Quoted(a) == Quoted(b) <==> Merge(a) == Merge(b)
    ensures PairFree(a) && PairFree(b) ==> (Quoted(a) == Quoted(b) <==> a == b)
  {
    MergeIsPairFree(a);
    MergeIsPairFree(b);
    if Quoted(a) == Quoted(b) {
      assert Quoted(a) + [] == Quoted(b) + [];
      QuotedSplits(a, [], b, []);
      UnitsInjective(Merge(a), Merge(b));
      if PairFree(a) && PairFree(b) {
        UnitsInjective(a, b);
      }
    }
  }

  lemma MergeIsSame(t: Text)
    requires PairFree(t)
    ensures Merge(t) == t
  {
    MergeIsPairFree(t);
    UnitsInjective(Merge(t), t);
  }
}
