/**
 The names of sign-in methods: the pattern a sign-in start accepts (routes/session.go), the pattern an offered
 method must match (clients/signinmethods.go), and the lists of names they describe.
 */
module MethodNames {
  import opened Common
  import opened Text

  // Regular expressions, matched against a whole text.

  datatype Class = Letter | LetterOrDigit | Space

  datatype Regex = One(kind: Class) | Cat(left: Regex, right: Regex) | Times(inner: Regex, min: nat, max: nat)

  predicate InClass(c: char, kind: Class) {
    var letter := 'A' <= c <= 'Z' || 'a' <= c <= 'z';
    match kind
    case Letter => letter
    case LetterOrDigit => letter || '0' <= c <= '9'
    case Space => c == ' '
  }

  function Concat(parts: seq<string>): string {
    if parts == [] then "" else parts[0] + Concat(parts[1..])
  }

  ghost predicate Matches(r: Regex, s: string) {
    match r
    case One(kind) => |s| == 1 && InClass(s[0], kind)
    case Cat(left, right) => exists k :: 0 <= k <= |s| && Matches(left, s[..k]) && Matches(right, s[k..])
    case Times(inner, min, max) =>
      exists parts: seq<string> :: min <= |parts| <= max && Concat(parts) == s && forall i | 0 <= i < |parts| ::
        Matches(inner, parts[i])
  }

  /** `[A-Za-z][A-Za-z0-9]{0,63}` */
  const NAME := Cat(One(Letter), Times(One(LetterOrDigit), 0, 63))

  /** `NAME( NAME){0,7}` */
  const NAMES := Cat(NAME, Times(Cat(One(Space), NAME), 0, 7))

  // The same languages, described directly.

  predicate IsName(s: string) {
    && 1 <= |s| <= 64
    && InClass(s[0], Letter)
    && forall i | 1 <= i < |s| :: InClass(s[i], LetterOrDigit)
  }

  function Rest(names: seq<string>): string {
    if names == [] then "" else " " + names[0] + Rest(names[1..])
  }

  /** `strings.Join(names, " ")` */
  function Join(names: seq<string>): string {
    if names == [] then "" else names[0] + Rest(names[1..])
  }

  function WordLength(s: string): (n: nat)
    ensures n <= |s|
  {
    if s == "" || s[0] == ' ' then 0 else 1 + WordLength(s[1..])
  }

  /** `strings.Split(s, " ")` */
  function Split(s: string): seq<string>
    decreases |s|
  {
    var n := WordLength(s);
    if n == |s| then [s] else [s[..n]] + Split(s[n + 1..])
  }

  /** What a sign-in start accepts as `acr_values`, besides none at all. */
  predicate Accepted(s: string) {
    var names := Split(s);
    |names| <= 8 && forall i | 0 <= i < |names| :: IsName(names[i])
  }

  ghost predicate NameList(names: seq<string>) {
    1 <= |names| <= 8 && forall i | 0 <= i < |names| :: IsName(names[i])
  }

  // Joining and splitting.

  lemma {:induction false} WordThenSpace(word: string, rest: string)
    requires forall i | 0 <= i < |word| :: word[i] != ' '
    requires rest == "" || rest[0] == ' '
    ensures WordLength(word + rest) == |word|
  {
    if word == "" {
      assert word + rest == rest;
    } else {
      WordThenSpace(word[1..], rest);
      assert (word + rest)[1..] == word[1..] + rest;
    }
  }

  lemma SplitWord(word: string, rest: string)
    requires forall i | 0 <= i < |word| :: word[i] != ' '
    ensures Split(word) == [word]
    ensures Split(word + " " + rest) == [word] + Split(rest)
  {
    WordThenSpace(word, "");
    assert word + "" == word;
    WordThenSpace(word, " " + rest);
    var s := word + " " + rest;
    assert s == word + (" " + rest);
    assert s[..|word|] == word && s[|word| + 1..] == rest;
  }

  lemma {:induction false} SplitJoin(names: seq<string>)
    requires names != [] && forall i | 0 <= i < |names| :: IsName(names[i])
    ensures Split(Join(names)) == names
  {
    var tail := names[1..];
    assert IsName(names[0]);
    assert names == [names[0]] + tail;
    if tail == [] {
      SplitWord(names[0], "");
      assert Join(names) == names[0];
    } else {
      SplitJoin(tail);
      SplitWord(names[0], Join(tail));
      JoinWord(names[0], tail);
    }
  }

  lemma JoinWord(word: string, names: seq<string>)
    requires names != []
    ensures Join([word] + names) == word + " " + Join(names)
  {
    assert ([word] + names)[1..] == names;
    assert Rest(names) == " " + names[0] + Rest(names[1..]);
  }

  lemma CutAt(s: string, n: nat)
    requires n < |s| && s[n] == ' '
    ensures s == s[..n] + " " + s[n + 1..]
  {}

  lemma WordAndRest(s: string)
    requires WordLength(s) < |s|
    ensures s == s[..WordLength(s)] + " " + s[WordLength(s) + 1..]
    ensures Split(s) == [s[..WordLength(s)]] + Split(s[WordLength(s) + 1..])
  {
    WordStops(s);
    CutAt(s, WordLength(s));
  }

  lemma {:induction false} JoinSplit(s: string)
    ensures Split(s) != [] && Join(Split(s)) == s
    decreases |s|
  {
    var n := WordLength(s);
    if n < |s| {
      var word, rest := s[..n], s[n + 1..];
      WordAndRest(s);
      JoinSplit(rest);
      JoinWord(word, Split(rest));
    }
  }

  lemma {:induction false} WordStops(s: string)
    requires WordLength(s) < |s|
    ensures s[WordLength(s)] == ' '
  {
    if s[0] != ' ' {
      WordStops(s[1..]);
    }
  }

  // The patterns describe exactly these texts.

  lemma {:induction false} ConcatSymbols(parts: seq<string>, kind: Class)
    requires forall i | 0 <= i < |parts| :: Matches(One(kind), parts[i])
    ensures |Concat(parts)| == |parts| && forall i | 0 <= i < |parts| :: InClass(Concat(parts)[i], kind)
  {
    if parts != [] {
      ConcatSymbols(parts[1..], kind);
    }
  }

  lemma {:induction false} SymbolsConcat(s: string) returns (parts: seq<string>)
    ensures |parts| == |s| && Concat(parts) == s && forall i | 0 <= i < |s| :: parts[i] == [s[i]]
  {
    if s == "" {
      parts := [];
    } else {
      var rest := SymbolsConcat(s[1..]);
      parts := [[s[0]]] + rest;
      assert parts[1..] == rest && s == [s[0]] + s[1..];
    }
  }

  lemma PatternIsName(s: string)
    requires Matches(NAME, s)
    ensures IsName(s)
  {
    var k, parts := NamePatternParts(s);
    ConcatSymbols(parts, LetterOrDigit);
    assert forall i | 1 <= i < |s| :: s[i] == s[k..][i - 1];
  }

  lemma NamePatternParts(s: string) returns (k: nat, parts: seq<string>)
    requires Matches(NAME, s)
    ensures k == 1 <= |s| && InClass(s[0], Letter)
    ensures |parts| <= 63 && Concat(parts) == s[k..] && forall i | 0 <= i < |parts| ::
            Matches(One(LetterOrDigit), parts[i])
  {
    var tail := Times(One(LetterOrDigit), 0, 63);
    assert NAME == Cat(One(Letter), tail);
    k :| 0 <= k <= |s| && Matches(One(Letter), s[..k]) && Matches(tail, s[k..]);
    parts :| 0 <= |parts| <= 63 && Concat(parts) == s[k..] && forall i | 0 <= i < |parts| ::
      Matches(One(LetterOrDigit), parts[i]);
  }

  lemma NameIsPattern(s: string)
    requires IsName(s)
    ensures Matches(NAME, s)
  {
    var parts := SymbolsConcat(s[1..]);
    assert forall i | 0 <= i < |parts| :: Matches(One(LetterOrDigit), parts[i]);
    assert Matches(Times(One(LetterOrDigit), 0, 63), s[1..]);
    assert Matches(One(Letter), s[..1]);
  }

  lemma NamePattern(s: string)
    ensures Matches(NAME, s) <==> IsName(s)
  {
    if Matches(NAME, s) {
      PatternIsName(s);
    }
    if IsName(s) {
      NameIsPattern(s);
    }
  }

  lemma SpacedName(p: string) returns (name: string)
    requires Matches(Cat(One(Space), NAME), p)
    ensures IsName(name) && p == " " + name
  {
    var k :| 0 <= k <= |p| && Matches(One(Space), p[..k]) && Matches(NAME, p[k..]);
    name := p[k..];
    NamePattern(name);
  }

  lemma NameSpaced(name: string)
    requires IsName(name)
    ensures Matches(Cat(One(Space), NAME), " " + name)
  {
    var p := " " + name;
    NamePattern(name);
    assert p[..1] == " " && p[1..] == name;
    assert Matches(One(Space), p[..1]);
  }

  lemma {:induction false} RestOfParts(parts: seq<string>) returns (names: seq<string>)
    requires forall i | 0 <= i < |parts| :: Matches(Cat(One(Space), NAME), parts[i])
    ensures |names| == |parts| && Rest(names) == Concat(parts) && forall i | 0 <= i < |names| :: IsName(names[i])
  {
    if parts == [] {
      names := [];
    } else {
      var name := SpacedName(parts[0]);
      var rest := RestOfParts(parts[1..]);
      names := [name] + rest;
      assert names[1..] == rest;
    }
  }

  lemma {:induction false} PartsOfRest(names: seq<string>) returns (parts: seq<string>)
    requires forall i | 0 <= i < |names| :: IsName(names[i])
    ensures |parts| == |names| && Concat(parts) == Rest(names)
    ensures forall i | 0 <= i < |parts| :: Matches(Cat(One(Space), NAME), parts[i])
  {
    if names == [] {
      parts := [];
    } else {
      var rest := PartsOfRest(names[1..]);
      NameSpaced(names[0]);
      parts := [" " + names[0]] + rest;
      assert parts[1..] == rest;
    }
  }

  lemma MatchedIsJoin(s: string) returns (names: seq<string>)
    requires Matches(NAMES, s)
    ensures NameList(names) && s == Join(names)
  {
    var k, parts := PatternParts(s);
    NamePattern(s[..k]);
    names := NamesOfParts(s[..k], parts);
    assert s == s[..k] + s[k..];
  }

  lemma PatternParts(s: string) returns (k: nat, parts: seq<string>)
    requires Matches(NAMES, s)
    ensures k <= |s| && Matches(NAME, s[..k])
    ensures |parts| <= 7 && Concat(parts) == s[k..]
    ensures forall i | 0 <= i < |parts| :: Matches(Cat(One(Space), NAME), parts[i])
  {
    var tail := Times(Cat(One(Space), NAME), 0, 7);
    assert NAMES == Cat(NAME, tail);
    k :| 0 <= k <= |s| && Matches(NAME, s[..k]) && Matches(tail, s[k..]);
    parts :| 0 <= |parts| <= 7 && Concat(parts) == s[k..] && forall i | 0 <= i < |parts| ::
      Matches(Cat(One(Space), NAME), parts[i]);
  }

  lemma NamesOfParts(head: string, parts: seq<string>) returns (names: seq<string>)
    requires IsName(head) && |parts| <= 7
    requires forall i | 0 <= i < |parts| :: Matches(Cat(One(Space), NAME), parts[i])
    ensures NameList(names) && head + Concat(parts) == Join(names)
  {
    var rest := RestOfParts(parts);
    names := [head] + rest;
    assert names[1..] == rest;
  }

  lemma JoinIsMatched(names: seq<string>)
    requires NameList(names)
    ensures Matches(NAMES, Join(names))
  {
    var s, k := Join(names), |names[0]|;
    var parts := PartsOfRest(names[1..]);
    NamePattern(names[0]);
    assert s[..k] == names[0] && s[k..] == Rest(names[1..]);
    assert Matches(Times(Cat(One(Space), NAME), 0, 7), s[k..]);
  }

  /** The texts the pattern matches are exactly the single-space joins of one to eight names. */
  lemma NamesPatternIsJoins(s: string)
    ensures Matches(NAMES, s) <==> exists names :: NameList(names) && s == Join(names)
  {
    if Matches(NAMES, s) {
      var names := MatchedIsJoin(s);
    }
    if names :| NameList(names) && s == Join(names) {
      JoinIsMatched(names);
    }
  }

  /** Splitting is a decision procedure for the pattern, and recovers the list that was joined. */
  lemma AcceptedIsPattern(s: string, names: seq<string>)
    ensures Accepted(s) <==> Matches(NAMES, s)
    ensures NameList(names) ==> Accepted(Join(names)) && Split(Join(names)) == names
  {
    NamesPatternIsJoins(s);
    JoinSplit(s);
    if Accepted(s) {
      assert NameList(Split(s)) && s == Join(Split(s));
    }
    if Matches(NAMES, s) {
      var joined :| NameList(joined) && s == Join(joined);
      SplitJoin(joined);
    }
    if NameList(names) {
      SplitJoin(names);
    }
  }

  // The offered methods.

  ghost function Trimmed(names: seq<string>): seq<string> {
    seq(|names|, i requires 0 <= i < |names| => TrimSpace(names[i]))
  }

  /** The methods passed on to the page: the published ones, trimmed, that are names. */
  method Flows(published: seq<string>) returns (methods: seq<string>)
    ensures methods == Filter(Trimmed(published), IsName)
  {
    methods := [];
    ghost var trimmed := Trimmed(published);
    for i := 0 to |published|
      invariant methods == Filter(trimmed[..i], IsName)
    {
      var m := TrimSpace(published[i]);
      FilterStep(trimmed, IsName, i);
      if IsName(m) {
        methods := methods + [m];
      }
    }
    assert trimmed[..|published|] == trimmed;
  }

  /** Any one to eight offered methods, in any order and repeated at will, make a text a sign-in start accepts. */
  lemma OfferedIsAccepted(published: seq<string>, chosen: seq<string>)
    requires 1 <= |chosen| <= 8
    requires forall i | 0 <= i < |chosen| :: chosen[i] in Filter(Trimmed(published), IsName)
    ensures Join(chosen) != "" && Matches(NAMES, Join(chosen)) && Split(Join(chosen)) == chosen
  {
    FilterMembers(Trimmed(published), IsName);
    assert forall i | 0 <= i < |chosen| :: IsName(chosen[i]);
    AcceptedIsPattern(Join(chosen), chosen);
  }
}
