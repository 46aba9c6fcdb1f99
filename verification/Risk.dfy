/** Risk classification from the words of a tool's name. */
module Risk {
  import opened Basics
  import opened Storage

  const CRITICAL_WORDS: set<string> :=
    {"shell", "bash", "sudo", "eval", "exec", "cmd", "powershell", "subprocess", "terminal"}
  const LAUNCH_VERBS: set<string> := {"execute", "run", "invoke", "launch"}
  const CODE_OBJECTS: set<string> :=
    {"command", "commands", "cmd", "script", "code", "program", "binary", "process"}
  const HIGH_WORDS: set<string> :=
    {"delete", "remove", "drop", "truncate", "destroy", "erase", "wipe", "purge", "kill",
     "terminate", "revoke", "format", "reset", "shutdown", "execute", "trade", "buy", "sell",
     "transfer", "withdraw", "pay", "payment", "grant"}
  const MEDIUM_WORDS: set<string> :=
    {"write", "create", "update", "set", "save", "send", "post", "put", "add", "edit", "modify",
     "upload", "insert", "append", "move", "rename", "copy", "install", "deploy", "run",
     "submit", "email", "publish", "patch", "invoke"}
  const LOW_WORDS: set<string> :=
    {"get", "read", "search", "list", "fetch", "query", "describe", "show", "find", "lookup",
     "view", "check", "count", "stat", "status", "summarize", "info"}

  const UNDERSCORE: CodePoint := 95
  const HYPHEN: CodePoint := 45

  predicate IsLower(c: CodePoint) { 97 <= c <= 122 }
  predicate IsUpper(c: CodePoint) { 65 <= c <= 90 }
  predicate IsDigit(c: CodePoint) { 48 <= c <= 57 }
  predicate IsAlnum(c: CodePoint) { IsLower(c) || IsUpper(c) || IsDigit(c) }

  // ----- splitting a name into words -----------------------------------------------------------

  /** Puts an underscore between a lowercase letter or digit and a capital that follows it. Matches
      of the pattern cannot overlap, since a capital ends one and cannot start another. */
  function Spaced(t: Text): Text {
    if |t| < 2 then t
    else if (IsLower(t[0]) || IsDigit(t[0])) && IsUpper(t[1]) then [t[0], UNDERSCORE] + Spaced(t[1..])
    else [t[0]] + Spaced(t[1..])
  }

  /** The maximal alphanumeric runs of `t`, the first of which continues `current`. */
  function SplitFrom(current: Text, t: Text): seq<Text>
    decreases |t|
  {
    if t == [] then (if current == [] then [] else [current])
    else if IsAlnum(t[0]) then SplitFrom(current + [t[0]], t[1..])
    else (if current == [] then [] else [current]) + SplitFrom([], t[1..])
  }

  predicate AllAlnum(w: Text) { forall i :: 0 <= i < |w| ==> IsAlnum(w[i]) }

  function LowerChar(c: CodePoint): char
    requires IsAlnum(c)
  {
    if IsUpper(c) then (c + 32) as char else c as char
  }

  function Lowered(w: Text): (s: string)
    requires AllAlnum(w)
    ensures |s| == |w|
  {
    seq(|w|, i requires 0 <= i < |w| && IsAlnum(w[i]) => LowerChar(w[i]))
  }

  lemma {:induction false} SplitIsAlnum(current: Text, t: Text)
    requires AllAlnum(current)
    ensures forall k :: 0 <= k < |SplitFrom(current, t)| ==> AllAlnum(SplitFrom(current, t)[k])
    decreases |t|
  {
    if t != [] {
      if IsAlnum(t[0]) {
        SplitIsAlnum(current + [t[0]], t[1..]);
      } else {
        SplitIsAlnum([], t[1..]);
      }
    }
  }

  function Words(name: Text): set<string> {
    SplitIsAlnum([], Spaced(name));
    var parts := SplitFrom([], Spaced(name));
    set k | 0 <= k < |parts| :: Lowered(parts[k])
  }

  // ----- the words of any name -----------------------------------------------------------------

  /** Between these two characters a camel-case name is split. */
  predicate Hump(t: Text, k: int) {
    0 < k < |t| && (IsLower(t[k - 1]) || IsDigit(t[k - 1])) && IsUpper(t[k])
  }

  /** A word may begin or end here. */
  predicate Edge(t: Text, k: int) {
    0 <= k <= |t| && (k == 0 || k == |t| || !IsAlnum(t[k - 1]) || !IsAlnum(t[k]) || Hump(t, k))
  }

  /** A longest stretch of letters and digits without a hump inside. */
  ghost predicate WordAt(t: Text, i: int, j: int) {
    && 0 <= i < j <= |t| && Edge(t, i) && Edge(t, j)
    && (forall k :: i <= k < j ==> IsAlnum(t[k])) && forall k :: i < k < j ==> !Hump(t, k)
  }

  /** Splitting without underscores: `current` is the word so far. */
  function Pieces(current: Text, t: Text): seq<Text>
    decreases |t|
  {
    if t == [] then (if current == [] then [] else [current])
    else if !IsAlnum(t[0]) then (if current == [] then [] else [current]) + Pieces([], t[1..])
    else if Hump(t, 1) then [current + [t[0]]] + Pieces([], t[1..])
    else Pieces(current + [t[0]], t[1..])
  }

  lemma {:induction false} SpacedIsPieces(current: Text, t: Text)
    ensures SplitFrom(current, Spaced(t)) == Pieces(current, t)
    decreases |t|
  {
    if |t| == 1 {
      assert t[1..] == [];
    } else if |t| >= 2 {
      var rest := Spaced(t[1..]);
      SpacedIsPieces([], t[1..]);
      if Hump(t, 1) {
        assert ([t[0], UNDERSCORE] + rest)[1..] == [UNDERSCORE] + rest;
        assert ([UNDERSCORE] + rest)[1..] == rest;
      } else {
        SpacedIsPieces(current + [t[0]], t[1..]);
        assert ([t[0]] + rest)[1..] == rest;
      }
    }
  }

  /** A word is under way from `q` to `p`, or none is and one may begin at `p`. */
  ghost predicate UnderWay(t: Text, q: int, p: int) {
    && 0 <= q <= p <= |t| && Edge(t, q)
    && (forall k :: q <= k < p ==> IsAlnum(t[k])) && forall k :: q < k <= p ==> !Hump(t, k)
  }

  /** The words from `q` on are the one that ends at `p`, if it is one, and those from `next` on. */
  lemma WordsFrom(t: Text, q: int, p: int, next: int, i: int, j: int)
    requires UnderWay(t, q, p) || (q < p <= |t| && UnderWay(t, q, p - 1))
    requires q < p ==> WordAt(t, q, p)
    requires p <= next <= |t| && forall k :: p <= k < next ==> !IsAlnum(t[k])
    requires WordAt(t, i, j) && q <= i
    ensures (i == q < p && j == p) || next <= i
  {
    assert forall k :: i < k < j ==> !Edge(t, k);
    assert forall k :: q < k < p ==> !Edge(t, k);
    assert IsAlnum(t[i]);
  }

  /** Exactly the words from `q` on are the pieces. */
  lemma {:induction false} PiecesAreWords(t: Text, q: int, p: int, x: Text)
    requires UnderWay(t, q, p)
    ensures x in Pieces(t[q..p], t[p..]) <==> exists i, j :: q <= i && WordAt(t, i, j) && x == t[i..j]
    decreases |t| - p
  {
    if p < |t| && IsAlnum(t[p]) && !Hump(t, p + 1) {
      assert t[q..p] + [t[p]] == t[q..p + 1] && t[p..][1..] == t[p + 1..];
      PiecesAreWords(t, q, p + 1, x);
    } else {
      PiecesEnd(t, q, p, x);
    }
  }

  lemma PiecesEnd(t: Text, q: int, p: int, x: Text)
    requires UnderWay(t, q, p) && (p < |t| && IsAlnum(t[p]) ==> Hump(t, p + 1))
    ensures x in Pieces(t[q..p], t[p..]) <==> exists i, j :: q <= i && WordAt(t, i, j) && x == t[i..j]
    decreases |t| - p, 0
  {
    var stop := if p < |t| && IsAlnum(t[p]) then p + 1 else p;
    var next := if p == |t| then p else p + 1;
    assert q < stop ==> WordAt(t, q, stop);
    if p < |t| {
      PiecesAreWords(t, next, next, x);
      assert t[next..next] == [] && t[p..][1..] == t[next..] && t[q..p] + [t[p]] == t[q..p + 1];
    }
    forall i, j | q <= i && WordAt(t, i, j) ensures (i == q < stop && j == stop) || next <= i {
      WordsFrom(t, q, stop, next, i, j);
    }
  }

  /** For every name: its words are its longest stretches of letters and digits without a hump, in lower
      case. */
  lemma WordsAreMaximal(name: Text, s: string)
    ensures s in Words(name)
            <==> exists i, j :: WordAt(name, i, j) && AllAlnum(name[i..j]) && s == Lowered(name[i..j])
  {
    SpacedIsPieces([], name);
    SplitIsAlnum([], Spaced(name));
    var parts := SplitFrom([], Spaced(name));
    assert name[0..0] == [] && name[0..] == name;
    if k :| 0 <= k < |parts| && s == Lowered(parts[k]) {
      PiecesAreWords(name, 0, 0, parts[k]);
    }
    if i, j :| WordAt(name, i, j) && AllAlnum(name[i..j]) && s == Lowered(name[i..j]) {
      PiecesAreWords(name, 0, 0, name[i..j]);
      var k :| 0 <= k < |parts| && parts[k] == name[i..j];
      assert s == Lowered(parts[k]);
    }
  }

  // ----- classification ------------------------------------------------------------------------

  predicate Meets(a: set<string>, b: set<string>) { a * b != {} }

  predicate RunsCode(words: set<string>) {
    Meets(words, CRITICAL_WORDS) || (Meets(words, LAUNCH_VERBS) && Meets(words, CODE_OBJECTS))
  }

  function Level(words: set<string>): RiskLevel {
    if RunsCode(words) then CRITICAL
    else if Meets(words, HIGH_WORDS) then HIGH
    else if Meets(words, MEDIUM_WORDS) then MEDIUM
    else if Meets(words, LOW_WORDS) then LOW
    else MEDIUM
  }

  function Classify(overrides: map<Text, RiskLevel>, tool: Text): RiskLevel {
    if tool in overrides then overrides[tool] else Level(Words(tool))
  }

  function Rank(r: RiskLevel): nat {
    match r case LOW => 1 case MEDIUM => 2 case HIGH => 3 case CRITICAL => 4
  }

  // ----- the most dangerous match wins ---------------------------------------------------------

  /** Some word is on the list of this level. A launch verb together with a code object is on the list of
      CRITICAL as well. */
  ghost predicate OnList(words: set<string>, r: RiskLevel) {
    match r
    case LOW => exists w :: w in words && w in LOW_WORDS
    case MEDIUM => exists w :: w in words && w in MEDIUM_WORDS
    case HIGH => exists w :: w in words && w in HIGH_WORDS
    case CRITICAL =>
      || (exists w :: w in words && w in CRITICAL_WORDS)
      || (exists v, o :: v in words && v in LAUNCH_VERBS && o in words && o in CODE_OBJECTS)
  }

  /** The greatest of the levels whose list some word is on, and MEDIUM if no list knows a word. */
  ghost predicate MostDangerous(words: set<string>, r: RiskLevel) {
    if forall l :: !OnList(words, l) then r == MEDIUM
    else OnList(words, r) && forall l :: OnList(words, l) ==> Rank(l) <= Rank(r)
  }

  lemma MeetsMeans(words: set<string>, list: set<string>)
    ensures Meets(words, list) <==> exists w :: w in words && w in list
  {
    if w :| w in words && w in list {
      assert w in words * list;
    }
    if Meets(words, list) {
      var w :| w in words * list;
      assert w in words && w in list;
    }
  }

  lemma LevelIsMostDangerous(words: set<string>)
    ensures MostDangerous(words, Level(words))
  {
    MeetsMeans(words, CRITICAL_WORDS);
    MeetsMeans(words, LAUNCH_VERBS);
    MeetsMeans(words, CODE_OBJECTS);
    MeetsMeans(words, HIGH_WORDS);
    MeetsMeans(words, MEDIUM_WORDS);
    MeetsMeans(words, LOW_WORDS);
    forall l | OnList(words, l) ensures Rank(l) <= Rank(Level(words)) && OnList(words, Level(words)) {
      match l case LOW => case MEDIUM => case HIGH => case CRITICAL =>
    }
  }

  /** An override is the answer where there is one; otherwise the most dangerous match wins, and unknown
      is MEDIUM. The levels are ranked in the order LOW, MEDIUM, HIGH, CRITICAL. */
  lemma ClassifyIsMostDangerous(overrides: map<Text, RiskLevel>, tool: Text)
    ensures tool in overrides ==> Classify(overrides, tool) == overrides[tool]
    ensures tool !in overrides ==> MostDangerous(Words(tool), Classify(overrides, tool))
    ensures Rank(LOW) < Rank(MEDIUM) < Rank(HIGH) < Rank(CRITICAL)
  {
    LevelIsMostDangerous(Words(tool));
  }

  // ----- more words, more risk -----------------------------------------------------------------

  /** Some rule other than the default applies to these words. */
  predicate Listed(words: set<string>) {
    RunsCode(words) || Meets(words, HIGH_WORDS) || Meets(words, MEDIUM_WORDS) || Meets(words, LOW_WORDS)
  }

  lemma MeetsGrows(a: set<string>, b: set<string>, list: set<string>)
    requires a <= b
    ensures Meets(a, list) ==> Meets(b, list)
  {
    if Meets(a, list) {
      var w :| w in a * list;
      assert w in b * list;
    }
  }

  /** Adding words never lowers the risk, whatever the words, exactly if one of the lists already
      applied: a name no list knows is MEDIUM, and a harmless verb beside it makes it LOW. */
  lemma MoreWordsNeverLowerRisk(words: set<string>)
    ensures Listed(words) <==> forall more :: words <= more ==> Rank(Level(words)) <= Rank(Level(more))
  {
    if Listed(words) {
      forall more | words <= more ensures Rank(Level(words)) <= Rank(Level(more)) {
        MeetsGrows(words, more, CRITICAL_WORDS);
        MeetsGrows(words, more, LAUNCH_VERBS);
        MeetsGrows(words, more, CODE_OBJECTS);
        MeetsGrows(words, more, HIGH_WORDS);
        MeetsGrows(words, more, MEDIUM_WORDS);
      }
    } else {
      GetLowersRisk(words);
      assert words <= words + {"get"};
    }
  }

  lemma GetLowersRisk(words: set<string>)
    requires !Listed(words)
    ensures Level(words) == MEDIUM && Level(words + {"get"}) == LOW
  {
    HarmlessVerb(words, CRITICAL_WORDS);
    HarmlessVerb(words, LAUNCH_VERBS);
    HarmlessVerb(words, CODE_OBJECTS);
    HarmlessVerb(words, HIGH_WORDS);
    HarmlessVerb(words, MEDIUM_WORDS);
    assert "get" in (words + {"get"}) * LOW_WORDS;
  }

  lemma HarmlessVerb(words: set<string>, list: set<string>)
    requires "get" !in list
    ensures Meets(words + {"get"}, list) ==> Meets(words, list)
  {
    if Meets(words + {"get"}, list) {
      var w :| w in (words + {"get"}) * list;
      assert w in words * list;
    }
  }

  // ----- naming conventions --------------------------------------------------------------------

  /** A lowercase word: a letter, then at least one letter or digit. */
  predicate IsWord(w: Text) {
    |w| >= 2 && IsLower(w[0]) && AllAlnum(w) && forall i :: 0 <= i < |w| ==> !IsUpper(w[i])
  }

  function Joined(parts: seq<Text>, separator: CodePoint): Text {
    if parts == [] then []
    else if |parts| == 1 then parts[0]
    else parts[0] + ([separator] + Joined(parts[1..], separator))
  }

  function Capitalised(w: Text): (r: Text)
    requires IsWord(w)
    ensures |r| == |w|
  {
    [w[0] - 32] + w[1..]
  }

  function CamelTail(words: seq<Text>): Text
    requires forall k :: 0 <= k < |words| ==> IsWord(words[k])
  {
    if words == [] then [] else Capitalised(words[0]) + CamelTail(words[1..])
  }

  function CamelCase(words: seq<Text>): Text
    requires forall k :: 0 <= k < |words| ==> IsWord(words[k])
  {
    if words == [] then [] else words[0] + CamelTail(words[1..])
  }

  predicate IsPart(p: Text) {
    p != [] && AllAlnum(p)
  }

  lemma {:induction false} SplitPart(current: Text, p: Text, rest: Text)
    requires AllAlnum(p)
    ensures SplitFrom(current, p + rest) == SplitFrom(current + p, rest)
    decreases |p|
  {
    if p == [] {
      assert p + rest == rest && current + p == current;
    } else {
      assert (p + rest)[1..] == p[1..] + rest;
      SplitPart(current + [p[0]], p[1..], rest);
      assert (current + [p[0]]) + p[1..] == current + p;
    }
  }

  /** Splitting undoes joining. */
  lemma {:induction false} SplitJoined(parts: seq<Text>, separator: CodePoint)
    requires forall k :: 0 <= k < |parts| ==> IsPart(parts[k])
    requires !IsAlnum(separator)
    ensures SplitFrom([], Joined(parts, separator)) == parts
  {
    if |parts| == 1 {
      SplitPart([], parts[0], []);
      assert parts[0] + [] == parts[0] && [] + parts[0] == parts[0];
    } else if parts != [] {
      var rest := [separator] + Joined(parts[1..], separator);
      SplitPart([], parts[0], rest);
      assert [] + parts[0] == parts[0] && rest[1..] == Joined(parts[1..], separator);
      SplitJoined(parts[1..], separator);
    }
  }

  lemma {:induction false} NothingToSpace(t: Text)
    requires forall i :: 0 <= i < |t| ==> !IsUpper(t[i])
    ensures Spaced(t) == t
  {
    if |t| >= 2 {
      NothingToSpace(t[1..]);
    }
  }

  lemma {:induction false} JoinedHasNoCapital(words: seq<Text>, separator: CodePoint)
    requires forall k :: 0 <= k < |words| ==> IsWord(words[k])
    requires !IsUpper(separator)
    ensures forall i :: 0 <= i < |Joined(words, separator)| ==> !IsUpper(Joined(words, separator)[i])
  {
    if |words| > 1 {
      JoinedHasNoCapital(words[1..], separator);
    }
  }

  lemma SpacedLast(p: Text, rest: Text)
    requires |p| == 1 && (IsLower(p[0]) || IsDigit(p[0])) && (rest != [] ==> IsUpper(rest[0]))
    ensures Spaced(p + rest) == if rest == [] then p else p + ([UNDERSCORE] + Spaced(rest))
  {
    assert (p + rest)[1..] == rest;
    if rest == [] {
      assert p + rest == p;
    } else {
      assert [p[0], UNDERSCORE] + Spaced(rest) == p + ([UNDERSCORE] + Spaced(rest));
    }
  }

  /** A part is left as it is, and a capital after it gets its underscore. */
  lemma {:induction false} SpacedPart(p: Text, rest: Text)
    requires p != [] && (forall i :: 1 <= i < |p| ==> !IsUpper(p[i]))
    requires IsLower(p[|p| - 1]) || IsDigit(p[|p| - 1])
    requires rest != [] ==> IsUpper(rest[0])
    ensures Spaced(p + rest) == if rest == [] then p else p + ([UNDERSCORE] + Spaced(rest))
    decreases |p|
  {
    if |p| == 1 {
      SpacedLast(p, rest);
    } else {
      var more := [UNDERSCORE] + Spaced(rest);
      SpacedPart(p[1..], rest);
      SpacedNoCapital(p + rest);
      assert (p + rest)[1..] == p[1..] + rest;
      assert [p[0]] + p[1..] == p && [p[0]] + (p[1..] + more) == p + more;
    }
  }

  lemma SpacedNoCapital(t: Text)
    requires |t| >= 2 && !IsUpper(t[1])
    ensures Spaced(t) == [t[0]] + Spaced(t[1..])
  {
  }

  function Parts(words: seq<Text>): (r: seq<Text>)
    requires forall k :: 0 <= k < |words| ==> IsWord(words[k])
    ensures |r| == |words|
    ensures forall k :: 0 <= k < |r| ==> r[k] == Capitalised(words[k])
  {
    seq(|words|, k requires 0 <= k < |words| => Capitalised(words[k]))
  }

  lemma {:induction false} SpacedCamelTail(words: seq<Text>)
    requires forall k :: 0 <= k < |words| ==> IsWord(words[k])
    ensures Spaced(CamelTail(words)) == Joined(Parts(words), UNDERSCORE)
  {
    if words != [] {
      SpacedCamelTail(words[1..]);
      SpacedPart(Capitalised(words[0]), CamelTail(words[1..]));
      assert Parts(words)[1..] == Parts(words[1..]);
      if |words| == 1 {
        assert CamelTail(words[1..]) == [];
      }
    }
  }

  lemma SpacedCamelCase(words: seq<Text>)
    requires words != [] && forall k :: 0 <= k < |words| ==> IsWord(words[k])
    ensures Spaced(CamelCase(words)) == Joined([words[0]] + Parts(words[1..]), UNDERSCORE)
  {
    var parts := [words[0]] + Parts(words[1..]);
    SpacedCamelTail(words[1..]);
    SpacedPart(words[0], CamelTail(words[1..]));
    assert parts[1..] == Parts(words[1..]);
    if |words| == 1 {
      assert CamelTail(words[1..]) == [];
    }
  }

  lemma WordIsPart(w: Text)
    requires IsWord(w)
    ensures IsPart(w) && IsPart(Capitalised(w)) && Lowered(Capitalised(w)) == Lowered(w)
  {
  }

  /** The set of these words, as the classifier sees them. */
  function AsStrings(words: seq<Text>): set<string>
    requires forall k :: 0 <= k < |words| ==> IsWord(words[k])
  {
    set k | 0 <= k < |words| && IsWord(words[k]) :: Lowered(words[k])
  }

  /** Splitting does not depend on the naming convention: snake_case, kebab-case and camelCase of the
      same lowercase words give back exactly those words. */
  lemma {:induction false} ConventionsAgree(words: seq<Text>)
    requires forall k :: 0 <= k < |words| ==> IsWord(words[k])
    ensures Words(Joined(words, UNDERSCORE)) == AsStrings(words)
    ensures Words(Joined(words, HYPHEN)) == AsStrings(words)
    ensures Words(CamelCase(words)) == AsStrings(words)
  {
    JoinedWords(words, UNDERSCORE);
    JoinedWords(words, HYPHEN);
    if words != [] {
      CamelWords(words);
    }
  }

  lemma JoinedWords(words: seq<Text>, separator: CodePoint)
    requires (forall k :: 0 <= k < |words| ==> IsWord(words[k])) && !IsAlnum(separator)
    ensures Words(Joined(words, separator)) == AsStrings(words)
  {
    forall k | 0 <= k < |words| ensures IsPart(words[k]) { WordIsPart(words[k]); }
    JoinedHasNoCapital(words, separator);
    NothingToSpace(Joined(words, separator));
    SplitJoined(words, separator);
  }

  lemma CamelWords(words: seq<Text>)
    requires words != [] && forall k :: 0 <= k < |words| ==> IsWord(words[k])
    ensures Words(CamelCase(words)) == AsStrings(words)
  {
    var parts := [words[0]] + Parts(words[1..]);
    forall k | 0 <= k < |parts| ensures IsPart(parts[k]) && Lowered(parts[k]) == Lowered(words[k]) {
      WordIsPart(words[k]);
    }
    SpacedCamelCase(words);
    SplitJoined(parts, UNDERSCORE);
  }

  // ----- adding words to a name ----------------------------------------------------------------

  datatype Convention = Snake | Kebab | Camel

  predicate AllWords(words: seq<Text>) { forall k :: 0 <= k < |words| ==> IsWord(words[k]) }

  function Name(c: Convention, words: seq<Text>): Text
    requires AllWords(words)
  {
    match c
    case Snake => Joined(words, UNDERSCORE)
    case Kebab => Joined(words, HYPHEN)
    case Camel => CamelCase(words)
  }

  /** The longer name keeps the words of the shorter one and may have others anywhere. */
  predicate KeepsWords(words: seq<Text>, longer: seq<Text>) {
    forall k :: 0 <= k < |words| ==> words[k] in longer
  }

  lemma NameIsItsWords(c: Convention, words: seq<Text>)
    requires AllWords(words)
    ensures Classify(map[], Name(c, words)) == Level(AsStrings(words))
  {
    ConventionsAgree(words);
  }

  lemma KeptWordsAreFewer(words: seq<Text>, longer: seq<Text>)
    requires AllWords(words) && AllWords(longer) && KeepsWords(words, longer)
    ensures AsStrings(words) <= AsStrings(longer)
  {
    forall s | s in AsStrings(words) ensures s in AsStrings(longer) {
      var k :| 0 <= k < |words| && s == Lowered(words[k]);
      assert words[k] in longer;
    }
  }

  /** The name with the harmless verb at its end. */
  function WithGet(words: seq<Text>): seq<Text> { words + [Lit("get")] }

  lemma GetIsHarmless(words: seq<Text>)
    requires AllWords(words)
    ensures AllWords(WithGet(words)) && KeepsWords(words, WithGet(words))
    ensures AsStrings(WithGet(words)) == AsStrings(words) + {"get"}
  {
    var longer := WithGet(words);
    assert IsWord(Lit("get")) && Lowered(Lit("get")) == "get";
    assert forall k :: 0 <= k < |words| ==> longer[k] == words[k];
    KeptWordsAreFewer(words, longer);
    assert longer[|words|] == Lit("get");
    forall s | s in AsStrings(longer) ensures s in AsStrings(words) + {"get"} {
      var k :| 0 <= k < |longer| && s == Lowered(longer[k]);
      if k < |words| {
        assert longer[k] == words[k];
      }
    }
  }

  /** The most dangerous match wins in a name made of words, in any convention. */
  lemma NameIsMostDangerous(c: Convention, words: seq<Text>)
    requires AllWords(words)
    ensures MostDangerous(AsStrings(words), Classify(map[], Name(c, words)))
  {
    NameIsItsWords(c, words);
    LevelIsMostDangerous(AsStrings(words));
  }

  /** A name with a word on the list of a level, in any convention, has at least that level. */
  lemma NameIsAtLeast(c: Convention, words: seq<Text>, k: nat, r: RiskLevel)
    requires AllWords(words) && k < |words| && OnList({Lowered(words[k])}, r)
    ensures Rank(Classify(map[], Name(c, words))) >= Rank(r)
  {
    NameIsMostDangerous(c, words);
    assert Lowered(words[k]) in AsStrings(words);
    assert OnList(AsStrings(words), r);
  }

  /** Adding words to a tool's name, anywhere and in whatever naming convention, never lowers its risk,
      exactly if one of the lists already knew a word of it. */
  lemma LongerNameNeverLowersRisk(words: seq<Text>)
    requires AllWords(words)
    ensures Listed(AsStrings(words))
            <==> forall c, d, longer :: AllWords(longer) && KeepsWords(words, longer)
                   ==> Rank(Classify(map[], Name(c, words))) <= Rank(Classify(map[], Name(d, longer)))
  {
    MoreWordsNeverLowerRisk(AsStrings(words));
    if Listed(AsStrings(words)) {
      forall c, d, longer | AllWords(longer) && KeepsWords(words, longer)
        ensures Rank(Classify(map[], Name(c, words))) <= Rank(Classify(map[], Name(d, longer)))
      {
        NameIsItsWords(c, words);
        NameIsItsWords(d, longer);
        KeptWordsAreFewer(words, longer);
      }
    } else {
      GetIsHarmless(words);
      GetLowersRisk(AsStrings(words));
      NameIsItsWords(Snake, words);
      NameIsItsWords(Snake, WithGet(words));
    }
  }
}
