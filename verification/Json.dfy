/** JSON-like values as the firewall receives them, and equality up to object key order. */
module JsonModel {
  import opened Basics

  /** The texts `float.__repr__` and the JSON encoder print for floats. */
  predicate IsFloatRepr(t: Text) {
    || t == Lit("NaN") || t == Lit("Infinity") || t == Lit("-Infinity")
    || ((forall c :: c in t ==> 48 <= c <= 57 || c == MINUS || c == PLUS || c == DOT || c == LETTER_E)
        && (DOT in t || LETTER_E in t))
  }

  const MINUS: CodePoint := 45
  const PLUS: CodePoint := 43
  const DOT: CodePoint := 46
  const LETTER_E: CodePoint := 101

  type FloatRepr = t: Text | IsFloatRepr(t) witness Lit("NaN")

  /** A float is represented by the text that is printed for it. */
  datatype Json =
    | Null
    | Bool(b: bool)
    | Int(n: int)
    | Float(repr: FloatRepr)
    | Str(text: Text)
    | Array(items: seq<Json>)
    | Object(members: seq<Member>)

  /** One key with its value; an object keeps its members in insertion order. */
  datatype Member = Member(key: Text, value: Json)

  // ----- equality up to key order ---------------------------------------------------------

  /** Equal values, where the members of an object may stand in any order, at every depth. */
  ghost predicate Equiv(a: Json, b: Json)
    decreases a, 2
  {
    match (a, b)
    case (Array(xs), Array(ys)) => |xs| == |ys| && forall i :: 0 <= i < |xs| ==> Equiv(xs[i], ys[i])
    case (Object(ms), Object(ns)) => EquivMembers(ms, ns)
    case _ => a == b
  }

  ghost predicate EquivMembers(ms: seq<Member>, ns: seq<Member>)
    decreases ms, 1
  {
    |ms| == |ns| && forall i :: 0 <= i < |ms| ==> HasPartner(ms[i], ns)
  }

  ghost predicate HasPartner(m: Member, ns: seq<Member>)
    decreases m, 0
  {
    exists j :: 0 <= j < |ns| && ns[j].key == m.key && Equiv(m.value, ns[j].value)
  }

  /** The keys of one object differ, as in any Python dict. */
  ghost predicate DistinctKeys(ms: seq<Member>) {
    forall i, j :: 0 <= i < j < |ms| ==> ms[i].key != ms[j].key
  }

  ghost predicate DictLike(v: Json) {
    match v
    case Array(items) => forall i :: 0 <= i < |items| ==> DictLike(items[i])
    case Object(ms) => DictLikeMembers(ms)
    case _ => true
  }

  ghost predicate DictLikeMembers(ms: seq<Member>) {
    DistinctKeys(ms) && forall i :: 0 <= i < |ms| ==> DictLike(ms[i].value)
  }

  function Without<T>(s: seq<T>, j: nat): (r: seq<T>)
    requires j < |s|
  {
    s[..j] + s[j + 1..]
  }

  /** Taking one member and its partner away leaves the rest matched: the step of every induction
      over two objects whose members are in different orders. */
  lemma MatchHead(ms: seq<Member>, ns: seq<Member>) returns (j: nat)
    requires EquivMembers(ms, ns) && ms != [] && DistinctKeys(ms) && DistinctKeys(ns)
    ensures j < |ns| && ns[j].key == ms[0].key && Equiv(ms[0].value, ns[j].value)
    ensures EquivMembers(ms[1..], Without(ns, j)) && DistinctKeys(ms[1..]) && DistinctKeys(Without(ns, j))
  {
    assert HasPartner(ms[0], ns);
    j :| 0 <= j < |ns| && ns[j].key == ms[0].key && Equiv(ms[0].value, ns[j].value);
    var rest := Without(ns, j);
    forall i | 0 <= i < |ms[1..]| ensures HasPartner(ms[1..][i], rest) {
      assert HasPartner(ms[i + 1], ns);
      var p :| 0 <= p < |ns| && ns[p].key == ms[i + 1].key && Equiv(ms[i + 1].value, ns[p].value);
      var q := if p < j then p else p - 1;
      assert p != j;
      assert rest[q] == ns[p];
    }
  }
}
