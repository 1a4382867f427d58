/**
 The two values a parked sign-in hangs on: the browser's binding (routes/cookies.go) and the key the flow is
 parked under (session/session.go). Both are unpadded base64url texts (section 5 of RFC 4648).
 */
module FlowKey {
  import opened Common

  type Byte = b: int | 0 <= b < 256

  type Sextet = n: int | 0 <= n < 64

  // Bytes and groups of six bits.

  function Regroup(b: seq<Byte>): seq<Sextet> {
    if b == [] then []
    else if |b| == 1 then [b[0] / 4, b[0] % 4 * 16]
    else if |b| == 2 then [b[0] / 4, b[0] % 4 * 16 + b[1] / 16, b[1] % 16 * 4]
    else [b[0] / 4, b[0] % 4 * 16 + b[1] / 16, b[1] % 16 * 4 + b[2] / 64, b[2] % 64] + Regroup(b[3..])
  }

  function FirstByte(v: int, w: int): int { v * 4 + w / 16 }

  function SecondByte(v: int, w: int): int { v % 16 * 16 + w / 4 }

  function ThirdByte(v: int, w: int): int { v % 4 * 64 + w }

  /** The bytes of complete groups; bits left over at the end are dropped unread, a lone sextet is an error. */
  function Ungroup(v: seq<Sextet>): Option<seq<Byte>> {
    if v == [] then Some([])
    else if |v| == 1 then None
    else if |v| == 2 then Some([FirstByte(v[0], v[1])])
    else if |v| == 3 then Some([FirstByte(v[0], v[1]), SecondByte(v[1], v[2])])
    else
      var rest := Ungroup(v[4..]);
      if rest.None? then None
      else Some([FirstByte(v[0], v[1]), SecondByte(v[1], v[2]), ThirdByte(v[2], v[3])] + rest.value)
  }

  lemma GroupRoundTrip(a: Byte, b: Byte, c: Byte)
    ensures FirstByte(a / 4, a % 4 * 16 + b / 16) == a
    ensures SecondByte(a % 4 * 16 + b / 16, b % 16 * 4 + c / 64) == b
    ensures ThirdByte(b % 16 * 4 + c / 64, c % 64) == c
  {}

  lemma RegroupStep(a: Byte, b: Byte, c: Byte, tail: seq<Byte>)
    ensures Regroup([a, b, c] + tail) == [a / 4, a % 4 * 16 + b / 16, b % 16 * 4 + c / 64, c % 64] + Regroup(tail)
  {
    assert ([a, b, c] + tail)[3..] == tail;
  }

  lemma UngroupStep(w: Sextet, x: Sextet, y: Sextet, z: Sextet, tail: seq<Sextet>)
    requires Ungroup(tail).Some?
    ensures Ungroup([w, x, y, z] + tail) ==
            Some([FirstByte(w, x), SecondByte(x, y), ThirdByte(y, z)] + Ungroup(tail).value)
  {
    assert ([w, x, y, z] + tail)[4..] == tail;
  }

  lemma UngroupGroup(a: Byte, b: Byte, c: Byte, tail: seq<Byte>)
    requires Ungroup(Regroup(tail)) == Some(tail)
    ensures Ungroup(Regroup([a, b, c] + tail)) == Some([a, b, c] + tail)
  {
    GroupRoundTrip(a, b, c);
    RegroupStep(a, b, c, tail);
    UngroupStep(a / 4, a % 4 * 16 + b / 16, b % 16 * 4 + c / 64, c % 64, Regroup(tail));
  }

  lemma UngroupPair(a: Byte, b: Byte)
    ensures Ungroup(Regroup([a, b])) == Some([a, b])
  {
    GroupRoundTrip(a, b, 0);
  }

  lemma UngroupSingle(a: Byte)
    ensures Ungroup(Regroup([a])) == Some([a])
  {
    GroupRoundTrip(a, 0, 0);
  }

  lemma {:induction false} UngroupRegroup(b: seq<Byte>)
    ensures Ungroup(Regroup(b)) == Some(b)
  {
    if |b| == 1 {
      UngroupSingle(b[0]);
      assert b == [b[0]];
    } else if |b| == 2 {
      UngroupPair(b[0], b[1]);
      assert b == [b[0], b[1]];
    } else if |b| >= 3 {
      UngroupRegroup(b[3..]);
      UngroupGroup(b[0], b[1], b[2], b[3..]);
      assert b == [b[0], b[1], b[2]] + b[3..];
    }
  }

  lemma {:induction false} RegroupLength(b: seq<Byte>)
    ensures |Regroup(b)| == |b| / 3 * 4 + (|b| % 3 * 8 + 5) / 6
  {
    if |b| >= 3 {
      RegroupLength(b[3..]);
    }
  }

  // Groups and symbols.

  function Symbol(n: Sextet): char {
    if n < 26 then 'A' + n as char
    else if n < 52 then 'a' + (n - 26) as char
    else if n < 62 then '0' + (n - 52) as char
    else if n == 62 then '-' else '_'
  }

  function SextetOf(c: char): Option<Sextet> {
    if 'A' <= c <= 'Z' then Some(c as int - 'A' as int)
    else if 'a' <= c <= 'z' then Some(c as int - 'a' as int + 26)
    else if '0' <= c <= '9' then Some(c as int - '0' as int + 52)
    else if c == '-' then Some(62) else if c == '_' then Some(63) else None
  }

  function Symbols(v: seq<Sextet>): string {
    seq(|v|, i requires 0 <= i < |v| => Symbol(v[i]))
  }

  /** The sextets a text names. Line breaks are skipped wherever they stand; any other foreign character is an error. */
  function SextetsOf(s: string): Option<seq<Sextet>> {
    if s == "" then Some([])
    else if s[0] == '\r' || s[0] == '\n' then SextetsOf(s[1..])
    else
      var n, rest := SextetOf(s[0]), SextetsOf(s[1..]);
      if n.None? || rest.None? then None else Some([n.value] + rest.value)
  }

  /** Neither a line break nor the dot that separates a flow key's parts. */
  predicate Plain(c: char) {
    c != '\r' && c != '\n' && c != '.'
  }

  lemma SymbolRoundTrip(n: Sextet)
    ensures SextetOf(Symbol(n)) == Some(n) && Plain(Symbol(n))
  {}

  lemma {:induction false} SymbolsRoundTrip(v: seq<Sextet>)
    ensures SextetsOf(Symbols(v)) == Some(v)
  {
    if v != [] {
      SymbolRoundTrip(v[0]);
      SymbolsRoundTrip(v[1..]);
      assert Symbols(v)[1..] == Symbols(v[1..]);
      assert Symbols(v)[0] == Symbol(v[0]);
      assert v == [v[0]] + v[1..];
    }
  }

  // The encoding.

  function Encode(b: seq<Byte>): string {
    Symbols(Regroup(b))
  }

  function Decode(s: string): Option<seq<Byte>> {
    var v := SextetsOf(s);
    if v.None? then None else Ungroup(v.value)
  }

  lemma EncodingIsReadable(b: seq<Byte>)
    ensures Decode(Encode(b)) == Some(b)
    ensures |Encode(b)| == |b| / 3 * 4 + (|b| % 3 * 8 + 5) / 6
  {
    UngroupRegroup(b);
    RegroupLength(b);
    SymbolsRoundTrip(Regroup(b));
  }

  // The flow key.

  const HASH_BYTES := 32

  /** The key of the flow with this state for a browser whose binding hashes to `sum`. */
  function Key(state: string, sum: seq<Byte>): string {
    state + "." + Encode(sum)
  }

  /** Whatever the states hold, dots included, a key names one state and one hash. */
  lemma KeyIsInjective(s: string, h: seq<Byte>, t: string, g: seq<Byte>)
    requires |h| == HASH_BYTES && |g| == HASH_BYTES && Key(s, h) == Key(t, g)
    ensures s == t && h == g
  {
    EncodingIsReadable(h);
    EncodingIsReadable(g);
    assert |s| == |t|;
    assert s == Key(s, h)[..|s|] && t == Key(t, g)[..|t|];
    assert Encode(h) == Key(s, h)[|s| + 1..] && Encode(g) == Key(t, g)[|t| + 1..];
  }

  // The browser's binding.

  const BINDING_BYTES := 32

  const BINDING_LENGTH := 43

  /** The binding a browser sent, or "" when it sent none or one this service could not have set. */
  function BrowserBinding(sent: string): string {
    if |sent| != BINDING_LENGTH || Decode(sent).None? then "" else sent
  }

  /** The binding a starting sign-in gets: the browser's own, or a new one made of `random`. */
  function BindBrowser(sent: string, random: seq<Byte>): string {
    if BrowserBinding(sent) == "" then Encode(random) else BrowserBinding(sent)
  }

  /** A character of the alphabet (table 2 of RFC 4648). */
  predicate InAlphabet(c: char) {
    'A' <= c <= 'Z' || 'a' <= c <= 'z' || '0' <= c <= '9' || c == '-' || c == '_'
  }

  /** How many characters are no line breaks. */
  function Printed(s: string): nat {
    if s == "" then 0 else (if s[0] == '\r' || s[0] == '\n' then 0 else 1) + Printed(s[1..])
  }

  lemma {:induction false} SextetsExactly(s: string)
    ensures SextetsOf(s).Some? <==> forall i | 0 <= i < |s| :: InAlphabet(s[i]) || s[i] == '\r' || s[i] == '\n'
    ensures SextetsOf(s).Some? ==> |SextetsOf(s).value| == Printed(s)
  {
    if s != "" {
      SextetsExactly(s[1..]);
      assert forall i | 1 <= i < |s| :: s[i] == s[1..][i - 1];
    }
  }

  lemma UngroupsAsRest(v: seq<Sextet>)
    requires |v| >= 4
    ensures Ungroup(v).Some? <==> Ungroup(v[4..]).Some?
  {}

  lemma {:induction false} UngroupsExactly(v: seq<Sextet>)
    ensures Ungroup(v).Some? <==> |v| % 4 != 1
    decreases |v|
  {
    if |v| >= 4 {
      UngroupsAsRest(v);
      UngroupsExactly(v[4..]);
    } else {
      assert |v| % 4 == |v|;
    }
  }

  /**
   Exactly which cookie values are taken for a binding: those of the length of one, all of them in the alphabet but for
   line breaks, which decoding skips, and not one character more than whole groups.
   */
  lemma BindingAcceptedExactly(sent: string)
    ensures BrowserBinding(sent) == sent || BrowserBinding(sent) == ""
    ensures BrowserBinding(sent) != "" <==>
            && |sent| == 43 && Printed(sent) % 4 != 1
            && forall i | 0 <= i < |sent| :: InAlphabet(sent[i]) || sent[i] == '\r' || sent[i] == '\n'
  {
    SextetsExactly(sent);
    if SextetsOf(sent).Some? {
      UngroupsExactly(SextetsOf(sent).value);
    }
  }

  /** What a sign-in start sets is a binding every later request is recognised by, and every later start keeps. */
  lemma BindingIsKept(sent: string, random: seq<Byte>, later: seq<Byte>)
    requires |random| == BINDING_BYTES
    ensures var b := BindBrowser(sent, random);
            b != "" && BrowserBinding(b) == b && BindBrowser(b, later) == b
              && (BrowserBinding(sent) != "" ==> b == sent)
  {
    EncodingIsReadable(random);
  }
}
