/**
 The addresses a redirect flow returns the browser to (config.go), and how they are read back. Identifiers are byte
 strings.
 */
module ReturnUrls {
  import opened Common
  import opened Text
  import FlowKey

  type Byte = FlowKey.Byte

  // Path escaping (percent-encoding, section 2.1 of RFC 3986), as url.PathEscape does it for one segment.

  predicate Unescaped(b: Byte) {
    var c := b as char;
    'a' <= c <= 'z' || 'A' <= c <= 'Z' || '0' <= c <= '9' || c in "-_.~$&+:=@"
  }

  function Hex(n: nat): char
    requires n < 16
  {
    if n < 10 then '0' + n as char else 'A' + (n - 10) as char
  }

  function HexValue(c: char): Option<nat> {
    if '0' <= c <= '9' then Some(c as int - '0' as int)
    else if 'A' <= c <= 'F' then Some(c as int - 'A' as int + 10)
    else None
  }

  function EscapeByte(b: Byte): string {
    if Unescaped(b) then [b as char] else ['%', Hex(b / 16), Hex(b % 16)]
  }

  function PathEscape(id: seq<Byte>): string {
    if id == [] then "" else EscapeByte(id[0]) + PathEscape(id[1..])
  }

  function PathUnescape(s: string): Option<seq<Byte>> {
    if s == "" then Some([])
    else if s[0] == '%' then
      if |s| < 3 || HexValue(s[1]).None? || HexValue(s[2]).None? then None
      else
        var rest := PathUnescape(s[3..]);
        var b := HexValue(s[1]).value * 16 + HexValue(s[2]).value;
        if rest.None? || b >= 256 then None else Some([b] + rest.value)
    else if s[0] as int >= 256 then None
    else
      var rest := PathUnescape(s[1..]);
      if rest.None? then None else Some([s[0] as int] + rest.value)
  }

  /** Characters an escaped identifier never holds: those that end it or mark the placeholder. */
  predicate Delimiter(c: char) {
    c in "/?{}"
  }

  predicate NoDelimiter(s: string) {
    forall i | 0 <= i < |s| :: !Delimiter(s[i])
  }

  lemma HexRoundTrip(n: nat)
    requires n < 16
    ensures HexValue(Hex(n)) == Some(n) && !Delimiter(Hex(n))
  {}

  lemma EscapeByteShape(b: Byte)
    ensures NoDelimiter(EscapeByte(b)) && EscapeByte(b) != ""
    ensures EscapeByte(b)[0] == '%' <==> !Unescaped(b)
  {
    HexRoundTrip(b / 16);
    HexRoundTrip(b % 16);
  }

  lemma {:induction false} UnescapeEscape(id: seq<Byte>)
    ensures PathUnescape(PathEscape(id)) == Some(id)
    ensures NoDelimiter(PathEscape(id))
  {
    if id != [] {
      var b, s := id[0], PathEscape(id);
      UnescapeEscape(id[1..]);
      EscapeByteShape(b);
      HexRoundTrip(b / 16);
      HexRoundTrip(b % 16);
      assert s[|EscapeByte(b)|..] == PathEscape(id[1..]);
      assert id == [b] + id[1..];
    }
  }

  // The addresses.

  const PLACEHOLDER := "{jobId}"

  const SIGN_SCREEN := "/sign?job={jobId}"

  function SlotPath(envelopeID: seq<Byte>, slotID: seq<Byte>): string {
    PathEscape(envelopeID) + "/slots/" + PathEscape(slotID) + SIGN_SCREEN
  }

  /** The success and the failure target; both empty without an origin. */
  function SigningSlotReturnURLs(origin: string, envelopeID: seq<Byte>, slotID: seq<Byte>): (string, string) {
    if origin == "" then ("", "")
    else
      var base := origin + "/envelopes/" + SlotPath(envelopeID, slotID);
      (base, base + "&error=1")
  }

  predicate IsSlash(c: char) {
    c == '/'
  }

  /** `postLogin` is the scheme and host of the post-login address, when it parses to both. */
  function SigningReturnOrigin(baseURL: string, postLogin: Option<(string, string)>): string {
    var configured := TrimSpace(baseURL);
    var origin := if configured == "" && postLogin.Some? then postLogin.value.0 + "://" + postLogin.value.1
      else configured;
    TrimRight(origin, IsSlash)
  }

  // Reading an address back.

  /** The text before and after the first slash. */
  function Cut(s: string): Option<(string, string)> {
    if s == "" then None
    else if s[0] == '/' then Some(("", s))
    else
      var rest := Cut(s[1..]);
      if rest.None? then None else Some(([s[0]] + rest.value.0, rest.value.1))
  }

  function ReadSlotPath(s: string): Option<(seq<Byte>, seq<Byte>, string)> {
    var first := Cut(s);
    if first.None? || !("/slots/" <= first.value.1) then None
    else
      var second := Cut(first.value.1[|"/slots/"|..]);
      if second.None? then None
      else
        var env, slot := PathUnescape(first.value.0), PathUnescape(second.value.0);
        if env.None? || slot.None? then None else Some((env.value, slot.value, second.value.1))
  }

  /** The envelope, the slot and whether it is the failure target, of an address under `origin`. */
  function ReadReturnURL(origin: string, url: string): Option<(seq<Byte>, seq<Byte>, bool)> {
    var head := origin + "/envelopes/";
    if !(head <= url) then None
    else
      var r := ReadSlotPath(url[|head|..]);
      if r.None? then None
      else if r.value.2 == SIGN_SCREEN then Some((r.value.0, r.value.1, false))
      else if r.value.2 == SIGN_SCREEN + "&error=1" then Some((r.value.0, r.value.1, true))
      else None
  }

  lemma {:induction false} CutAtSlash(s: string, rest: string)
    requires NoDelimiter(s) && rest != "" && rest[0] == '/'
    ensures Cut(s + rest) == Some((s, rest))
  {
    if s == "" {
      assert s + rest == rest;
    } else {
      CutAtSlash(s[1..], rest);
      assert (s + rest)[1..] == s[1..] + rest;
      assert s == [s[0]] + s[1..];
    }
  }

  lemma CutsAreReadable(e: string, s: string, tail: string)
    requires NoDelimiter(e) && NoDelimiter(s) && tail != "" && tail[0] == '/'
    requires PathUnescape(e).Some? && PathUnescape(s).Some?
    ensures ReadSlotPath(e + ("/slots/" + (s + tail))) == Some((PathUnescape(e).value, PathUnescape(s).value, tail))
  {
    var rest := "/slots/" + (s + tail);
    CutAtSlash(e, rest);
    assert rest[|"/slots/"|..] == s + tail;
    CutAtSlash(s, tail);
  }

  lemma SlotPathIsReadable(envelopeID: seq<Byte>, slotID: seq<Byte>, suffix: string)
    ensures ReadSlotPath(SlotPath(envelopeID, slotID) + suffix) == Some((envelopeID, slotID, SIGN_SCREEN + suffix))
  {
    UnescapeEscape(envelopeID);
    UnescapeEscape(slotID);
    var e, s, tail := PathEscape(envelopeID), PathEscape(slotID), SIGN_SCREEN + suffix;
    CutsAreReadable(e, s, tail);
    Reassociate(e, "/slots/", s, SIGN_SCREEN, suffix);
  }

  lemma Reassociate(a: string, b: string, c: string, d: string, e: string)
    ensures a + b + c + d + e == a + (b + (c + (d + e)))
  {}

  /**
   Both addresses start with the origin, and each can be read back to its envelope, its slot and which of the two it
   is, for all byte strings.
   */
  lemma ReturnURLsAreReadable(origin: string, envelopeID: seq<Byte>, slotID: seq<Byte>)
    requires origin != ""
    ensures var (success, failure) := SigningSlotReturnURLs(origin, envelopeID, slotID);
            && origin <= success && origin <= failure
            && ReadReturnURL(origin, success) == Some((envelopeID, slotID, false))
            && ReadReturnURL(origin, failure) == Some((envelopeID, slotID, true))
  {
    var head, path := origin + "/envelopes/", SlotPath(envelopeID, slotID);
    SlotPathIsReadable(envelopeID, slotID, "");
    SlotPathIsReadable(envelopeID, slotID, "&error=1");
    assert path + "" == path && SIGN_SCREEN + "" == SIGN_SCREEN;
    assert (head + path)[|head|..] == path;
    assert (head + path + "&error=1")[|head|..] == path + "&error=1";
    assert origin <= head + path;
  }

  /** Addresses of different slots differ, whichever of the two is compared. */
  lemma ReturnURLsAreUnique(origin: string, e: seq<Byte>, s: seq<Byte>, e': seq<Byte>, s': seq<Byte>)
    requires origin != ""
    ensures SigningSlotReturnURLs(origin, e, s).0 == SigningSlotReturnURLs(origin, e', s').0 ==> e == e' && s == s'
    ensures SigningSlotReturnURLs(origin, e, s).1 == SigningSlotReturnURLs(origin, e', s').1 ==> e == e' && s == s'
    ensures SigningSlotReturnURLs(origin, e, s).0 != SigningSlotReturnURLs(origin, e', s').1
  {
    ReturnURLsAreReadable(origin, e, s);
    ReturnURLsAreReadable(origin, e', s');
  }

  // The placeholder.

  ghost predicate OccursAt(pattern: string, s: string, i: int) {
    0 <= i <= |s| && pattern <= s[i..]
  }

  lemma OneOccurrence(before: string, after: string, i: int)
    requires forall k | 0 <= k < |before| :: before[k] != '{'
    requires PLACEHOLDER <= after && forall k | 1 <= k < |after| :: after[k] != '{'
    ensures OccursAt(PLACEHOLDER, before + after, i) <==> i == |before|
  {
    var s := before + after;
    assert s[|before|..] == after;
    if OccursAt(PLACEHOLDER, s, i) {
      assert s[i] == s[i..][0] == '{';
    }
  }

  lemma ScreenEndsInPlaceholder()
    ensures SIGN_SCREEN == "/sign?job=" + PLACEHOLDER
  {}

  lemma Rebracket(head: string, e: string, slots: string, s: string, job: string, placeholder: string, tail: string)
    ensures head + (e + slots + s + (job + placeholder)) == (head + e + slots + s + job) + placeholder
    ensures head + (e + slots + s + (job + placeholder)) + tail == (head + e + slots + s + job) + (placeholder + tail)
  {}

  /** The two addresses up to the placeholder, and from it on. */
  lemma AddressesSplit(origin: string, envelopeID: seq<Byte>, slotID: seq<Byte>) returns (before: string)
    requires origin != "" && forall k | 0 <= k < |origin| :: origin[k] != '{'
    ensures before == origin + "/envelopes/" + PathEscape(envelopeID) + "/slots/" + PathEscape(slotID) + "/sign?job="
    ensures forall k | 0 <= k < |before| :: before[k] != '{'
    ensures SigningSlotReturnURLs(origin, envelopeID, slotID) ==
            (before + PLACEHOLDER, before + (PLACEHOLDER + "&error=1"))
  {
    UnescapeEscape(envelopeID);
    UnescapeEscape(slotID);
    before := origin + "/envelopes/" + PathEscape(envelopeID) + "/slots/" + PathEscape(slotID) + "/sign?job=";
    BraceFree(origin, PathEscape(envelopeID), PathEscape(slotID));
    ScreenEndsInPlaceholder();
    Rebracket(origin + "/envelopes/", PathEscape(envelopeID), "/slots/", PathEscape(slotID), "/sign?job=", PLACEHOLDER,
      "&error=1");
  }

  /**
   Under an origin without braces the provider finds the placeholder exactly once in either address, where the job
   id belongs.
   */
  lemma PlaceholderOccursOnce(origin: string, envelopeID: seq<Byte>, slotID: seq<Byte>, i: int)
    requires origin != "" && forall k | 0 <= k < |origin| :: origin[k] != '{'
    ensures var (success, failure) := SigningSlotReturnURLs(origin, envelopeID, slotID);
            var at := |success| - |PLACEHOLDER|;
            && (OccursAt(PLACEHOLDER, success, i) <==> i == at)
            && (OccursAt(PLACEHOLDER, failure, i) <==> i == at)
            && failure == success + "&error=1"
            && success[..at] == origin + "/envelopes/" + PathEscape(envelopeID) + "/slots/" + PathEscape(slotID)
                 + "/sign?job="
  {
    var before := AddressesSplit(origin, envelopeID, slotID);
    OneOccurrence(before, PLACEHOLDER, i);
    OneOccurrence(before, PLACEHOLDER + "&error=1", i);
  }

  lemma BraceFree(origin: string, e: string, s: string)
    requires (forall k | 0 <= k < |origin| :: origin[k] != '{') && NoDelimiter(e) && NoDelimiter(s)
    ensures var before := origin + "/envelopes/" + e + "/slots/" + s + "/sign?job=";
            forall k | 0 <= k < |before| :: before[k] != '{'
  {
    var parts := ["/envelopes/", "/slots/", "/sign?job="];
    assert forall p, k | 0 <= p < 3 && 0 <= k < |parts[p]| :: parts[p][k] != '{';
    assert forall k | 0 <= k < |e| :: !Delimiter(e[k]) && e[k] != '{';
    assert forall k | 0 <= k < |s| :: !Delimiter(s[k]) && s[k] != '{';
  }

  // The origin.

  lemma {:induction false} TrimRightShape(s: string, cut: char -> bool)
    ensures TrimRight(s, cut) <= s
    ensures TrimRight(s, cut) == "" || !cut(TrimRight(s, cut)[|TrimRight(s, cut)| - 1])
    ensures forall i | |TrimRight(s, cut)| <= i < |s| :: cut(s[i])
  {
    if s != "" && cut(s[|s| - 1]) {
      TrimRightShape(s[..|s| - 1], cut);
    }
  }

  /**
   The origin is the configured one, or else the post-login one, without its trailing slashes; there are no
   addresses exactly when that leaves nothing.
   */
  lemma OriginIsResolved(baseURL: string, postLogin: Option<(string, string)>, e: seq<Byte>, s: seq<Byte>)
    ensures var origin := SigningReturnOrigin(baseURL, postLogin);
            var chosen := if TrimSpace(baseURL) != "" then TrimSpace(baseURL)
                          else if postLogin.Some? then postLogin.value.0 + "://" + postLogin.value.1 else "";
            && origin <= chosen && (forall i | |origin| <= i < |chosen| :: chosen[i] == '/')
            && (origin != "" ==> origin[|origin| - 1] != '/')
            && (SigningSlotReturnURLs(origin, e, s) == ("", "") <==> origin == "")
  {
    var chosen := if TrimSpace(baseURL) != "" then TrimSpace(baseURL)
                  else if postLogin.Some? then postLogin.value.0 + "://" + postLogin.value.1 else "";
    TrimRightShape(chosen, IsSlash);
  }

  // What the origin is documented to be.

  predicate InScheme(c: char) {
    'a' <= c <= 'z' || 'A' <= c <= 'Z' || '0' <= c <= '9' || c in "+-."
  }

  predicate IsScheme(s: string) {
    s != "" && ('a' <= s[0] <= 'z' || 'A' <= s[0] <= 'Z') && forall i | 0 <= i < |s| :: InScheme(s[i])
  }

  predicate EndsAuthority(c: char) {
    c in "/?#"
  }

  /** A non-empty host, after whatever names a user. */
  predicate IsAuthority(s: string) {
    s != "" && s[|s| - 1] != '@' && forall i | 0 <= i < |s| :: !EndsAuthority(s[i])
  }

  ghost predicate Splits(s: string, scheme: string, authority: string, path: string) {
    && s == scheme + "://" + authority + path
    && IsScheme(scheme) && IsAuthority(authority) && (path == "" || EndsAuthority(path[0]))
  }

  /** The address has a scheme and a host (section 3 of RFC 3986). */
  ghost predicate HasSchemeAndHost(s: string) {
    exists scheme, authority, path :: Splits(s, scheme, authority, path)
  }

  predicate OnlySlashes(s: string) {
    forall i | 0 <= i < |s| :: s[i] == '/'
  }

  /** What parsing an address to a scheme and a host gives. */
  predicate Parsed(address: Option<(string, string)>) {
    address.Some? ==> IsScheme(address.value.0) && IsAuthority(address.value.1)
  }

  lemma TrimRightSplits(s: string) returns (slashes: string)
    ensures s == TrimRight(s, IsSlash) + slashes && OnlySlashes(slashes)
    ensures TrimRight(s, IsSlash) == "" <==> OnlySlashes(s)
  {
    TrimRightShape(s, IsSlash);
    var t := TrimRight(s, IsSlash);
    slashes := s[|t|..];
    if t != "" { assert s[|t| - 1] == t[|t| - 1]; }
  }

  lemma SlashesJoinThePath(s: string, slashes: string, scheme: string, authority: string, path: string)
    requires Splits(s, scheme, authority, path) && OnlySlashes(slashes)
    ensures Splits(s + slashes, scheme, authority, path + slashes)
  {
    assert s + slashes == scheme + "://" + authority + (path + slashes);
  }

  lemma SlashesLeaveThePath(s: string, slashes: string, scheme: string, authority: string, path: string)
    requires Splits(s + slashes, scheme, authority, path) && OnlySlashes(slashes)
    ensures |slashes| <= |path| && Splits(s, scheme, authority, path[..|path| - |slashes|])
  {
    var head, whole := scheme + "://" + authority, s + slashes;
    assert whole == head + path;
    assert head[|head| - 1] == authority[|authority| - 1] && whole[|head| - 1] == head[|head| - 1];
    assert forall i | |s| <= i < |whole| :: whole[i] == slashes[i - |s|] && EndsAuthority(whole[i]);
    assert |slashes| <= |path|;
    assert s == whole[..|s|] == head + path[..|path| - |slashes|];
  }

  /** Trailing slashes are no part of a scheme or a host. */
  lemma TrimmingKeepsTheHost(s: string)
    ensures HasSchemeAndHost(TrimRight(s, IsSlash)) <==> HasSchemeAndHost(s)
  {
    var t := TrimRight(s, IsSlash);
    var slashes := TrimRightSplits(s);
    if HasSchemeAndHost(t) {
      var scheme, authority, path :| Splits(t, scheme, authority, path);
      SlashesJoinThePath(t, slashes, scheme, authority, path);
    }
    if HasSchemeAndHost(s) {
      var scheme, authority, path :| Splits(s, scheme, authority, path);
      SlashesLeaveThePath(t, slashes, scheme, authority, path);
    }
  }

  lemma ParsedHasHost(scheme: string, host: string)
    requires IsScheme(scheme) && IsAuthority(host)
    ensures var s := scheme + "://" + host; HasSchemeAndHost(s) && TrimRight(s, IsSlash) == s && s != ""
  {
    var s := scheme + "://" + host;
    assert s + "" == s;
    assert Splits(s, scheme, host, "");
    assert s[|s| - 1] == host[|host| - 1] && !EndsAuthority(host[|host| - 1]);
  }

  lemma NothingHasNoHost()
    ensures !HasSchemeAndHost("")
  {
    forall scheme, authority, path
      ensures !Splits("", scheme, authority, path)
    {
      assert |scheme + "://" + authority + path| >= 3;
    }
  }

  /**
   The origin as its comment has it: of the first of the two addresses with a scheme and a host, and empty when
   neither has them.
   */
  ghost function DocumentedOrigin(baseURL: string, postLogin: Option<(string, string)>): string {
    if HasSchemeAndHost(TrimSpace(baseURL)) then TrimRight(TrimSpace(baseURL), IsSlash)
    else if postLogin.Some? then postLogin.value.0 + "://" + postLogin.value.1
    else ""
  }

  /**
   Exactly when the origin is the documented one: the configured address is blank, or has a scheme and a host, or is
   only slashes with nothing to fall back to.
   */
  lemma OriginIsDocumentedExactly(baseURL: string, postLogin: Option<(string, string)>)
    requires Parsed(postLogin)
    ensures var base := TrimSpace(baseURL);
            SigningReturnOrigin(baseURL, postLogin) == DocumentedOrigin(baseURL, postLogin) <==>
            base == "" || HasSchemeAndHost(base) || (OnlySlashes(base) && postLogin.None?)
  {
    var base := TrimSpace(baseURL);
    var slashes := TrimRightSplits(base);
    TrimmingKeepsTheHost(base);
    NothingHasNoHost();
    if postLogin.Some? {
      ParsedHasHost(postLogin.value.0, postLogin.value.1);
    }
  }

  /**
   Exactly when addresses are built on an origin without a scheme or a host: for any other configured address that
   is not only slashes.
   */
  lemma OriginLacksHostExactly(baseURL: string, postLogin: Option<(string, string)>)
    requires Parsed(postLogin)
    ensures var base, origin := TrimSpace(baseURL), SigningReturnOrigin(baseURL, postLogin);
            origin != "" && !HasSchemeAndHost(origin) <==> !OnlySlashes(base) && !HasSchemeAndHost(base)
  {
    var base := TrimSpace(baseURL);
    var slashes := TrimRightSplits(base);
    TrimmingKeepsTheHost(base);
    if postLogin.Some? {
      ParsedHasHost(postLogin.value.0, postLogin.value.1);
    }
  }

  lemma NoColonNoHost(s: string)
    requires forall i | 0 <= i < |s| :: s[i] != ':'
    ensures !HasSchemeAndHost(s)
  {
    forall scheme, authority, path
      ensures !Splits(s, scheme, authority, path)
    {
      assert (scheme + "://" + authority + path)[|scheme|] == ':';
    }
  }

  /** It happens: a bare name is used as it stands, and a lone slash keeps the post-login address from being used. */
  lemma OriginIsNotAsDocumented(host: string)
    requires IsAuthority(host)
    ensures SigningReturnOrigin("portal", None) == "portal" && DocumentedOrigin("portal", None) == ""
    ensures SigningReturnOrigin("/", Some(("https", host))) == ""
            && DocumentedOrigin("/", Some(("https", host))) == "https://" + host
  {
    var name := "portal";
    assert TrimSpace(name) == name && TrimRight(name, IsSlash) == name by { assert name[0] == 'p' && name[5] == 'l'; }
    NoColonNoHost(name);
    var slash := "/";
    assert TrimSpace(slash) == slash by { assert slash[0] == '/'; }
    var rest := TrimRightSplits(slash);
    NoColonNoHost(slash);
  }
}
