/**
 The composed dashboard (routes/dashboard.go): three listings become one set of rows by subtraction, the
 destroyed-chain filter, the reduction to the latest envelope per document, and the retention join.
 */
module Dashboard {
  import opened Common
  import opened Text

  datatype Summary = Summary(
    id: string, title: string, status: string, orderPolicy: string, version: int, createdAt: string, updatedAt: string,
    docIDs: seq<string>, slotCount: int, signedCount: int, yourTurn: bool, retentionUntil: string)

  /** One document chain, addressable by its root or its live head; no `retentionUntil` is Go's zero time. */
  datatype ChainRow = ChainRow(
    chainRootID: string, id: string, kind: string, status: string, filename: string, retentionUntil: Option<int>)

  datatype SigningTask = SigningTask(
    envelope: Summary, slotID: string, orderIndex: int, slotStatus: string, slotFlow: string, yourTurn: bool)

  datatype Response = Response(tasks: seq<SigningTask>, envelopes: seq<Summary>, chains: seq<ChainRow>)

  predicate Addresses(c: ChainRow, doc: string) {
    doc == c.chainRootID || doc == c.id
  }

  predicate Names(e: Summary, c: ChainRow) {
    c.chainRootID in e.docIDs || c.id in e.docIDs
  }

  // The destroyed-chain filter.

  predicate Terminal(status: string) {
    status in {"completed", "declined", "cancelled", "expired"}
  }

  ghost predicate Live(chains: seq<ChainRow>, doc: string) {
    doc != "" && exists c :: c in chains && Addresses(c, doc)
  }

  lemma LiveStep(chains: seq<ChainRow>, c: ChainRow, doc: string)
    ensures Live(chains + [c], doc) <==> Live(chains, doc) || (doc != "" && Addresses(c, doc))
  {
    assert c in chains + [c];
    assert forall d | d in chains :: d in chains + [c];
  }

  ghost predicate Resolves(e: Summary, chains: seq<ChainRow>) {
    exists doc :: doc in e.docIDs && Live(chains, doc)
  }

  /**
   What the filter keeps: everything over an empty listing, else all but a terminal envelope with documents, none of
   them live.
   */
  ghost function StillStands(chains: seq<ChainRow>): Summary -> bool {
    (e: Summary) => chains == [] || !Terminal(e.status) || e.docIDs == [] || Resolves(e, chains)
  }

  method WithoutDestroyedChains(envs: seq<Summary>, chains: seq<ChainRow>) returns (out: seq<Summary>)
    ensures out == Filter(envs, StillStands(chains))
  {
    ghost var keep := StillStands(chains);
    if |envs| == 0 || |chains| == 0 {
      FilterAll(envs, keep);
      return envs;
    }
    var live: set<string> := {};
    for i := 0 to |chains|
      invariant forall doc :: doc in live <==> Live(chains[..i], doc)
    {
      var c := chains[i];
      assert chains[..i + 1] == chains[..i] + [c];
      forall doc { LiveStep(chains[..i], c, doc); }
      if c.chainRootID != "" {
        live := live + {c.chainRootID};
      }
      if c.id != "" {
        live := live + {c.id};
      }
    }
    assert chains[..|chains|] == chains;
    out := [];
    for i := 0 to |envs|
      invariant out == Filter(envs[..i], keep)
    {
      var e := envs[i];
      var stands := true;
      if Terminal(e.status) && |e.docIDs| > 0 {
        var resolved := false;
        for j := 0 to |e.docIDs|
          invariant !resolved
          invariant forall k | 0 <= k < j :: !Live(chains, e.docIDs[k])
        {
          if e.docIDs[j] in live {
            resolved := true;
            break;
          }
        }
        stands := resolved;
      }
      FilterStep(envs, keep, i);
      if stands {
        out := out + [e];
      }
    }
    assert envs[..|envs|] == envs;
  }

  // The reduction to the envelope that last acted on each document.

  predicate ActedLater(a: Summary, b: Summary) {
    if a.updatedAt != b.updatedAt then Less(b.updatedAt, a.updatedAt) else Less(b.id, a.id)
  }

  lemma ActedLaterIsStrictTotalOrder(a: Summary, b: Summary, c: Summary)
    ensures !ActedLater(a, a)
    ensures ActedLater(a, b) && ActedLater(b, c) ==> ActedLater(a, c)
    ensures a.id != b.id ==> ActedLater(a, b) || ActedLater(b, a)
    ensures !(ActedLater(a, b) && ActedLater(b, a))
  {
    LessIrreflexive(a.id);
    LessIrreflexive(a.updatedAt);
    LessTotal(a.updatedAt, b.updatedAt);
    LessTotal(a.id, b.id);
    if ActedLater(a, b) && ActedLater(b, c) {
      TransitiveWhereOrdered(c.updatedAt, b.updatedAt, a.updatedAt);
      TransitiveWhereOrdered(c.id, b.id, a.id);
      if a.updatedAt == c.updatedAt && a.updatedAt != b.updatedAt {
        LessTransitive(c.updatedAt, b.updatedAt, a.updatedAt);
        LessIrreflexive(a.updatedAt);
      }
    }
    if ActedLater(a, b) && ActedLater(b, a) {
      TransitiveWhereOrdered(a.updatedAt, b.updatedAt, a.updatedAt);
      TransitiveWhereOrdered(a.id, b.id, a.id);
    }
  }

  lemma TransitiveWhereOrdered(x: string, y: string, z: string)
    ensures Less(x, y) && Less(y, z) ==> Less(x, z)
  {
    if Less(x, y) && Less(y, z) {
      LessTransitive(x, y, z);
    }
  }

  /** The row the loop over `envs` leaves as the home of `doc`. */
  ghost function Home(envs: seq<Summary>, doc: string): Option<Summary> {
    if envs == [] then None else
      var before, e := Home(envs[..|envs| - 1], doc), envs[|envs| - 1];
      if doc in e.docIDs then Taken(before, e) else before
  }

  /** The home of a document once `e`, which names it, has been seen. */
  function Taken(before: Option<Summary>, e: Summary): Option<Summary> {
    if before.None? || ActedLater(e, before.value) then Some(e) else before
  }

  ghost predicate HomeOfSome(envs: seq<Summary>, id: string) {
    exists doc :: Home(envs, doc).Some? && Home(envs, doc).value.id == id
  }

  ghost function Survives(envs: seq<Summary>): Summary -> bool {
    (e: Summary) => e.docIDs == [] || HomeOfSome(envs, e.id)
  }

  method IdsOf(home: map<string, Summary>) returns (keep: set<string>)
    ensures forall id :: id in keep <==> exists doc :: doc in home && home[doc].id == id
  {
    keep := {};
    var rest := home.Keys;
    while rest != {}
      invariant rest <= home.Keys
      invariant forall id :: id in keep <==> exists doc :: doc in home.Keys - rest && home[doc].id == id
      decreases |rest|
    {
      var doc :| doc in rest;
      ghost var seen := home.Keys - rest;
      rest := rest - {doc};
      keep := keep + {home[doc].id};
      assert home.Keys - rest == seen + {doc};
    }
  }

  method LatestPerChain(envs: seq<Summary>) returns (out: seq<Summary>)
    ensures out == Filter(envs, Survives(envs))
  {
    var home: map<string, Summary> := map[];
    for i := 0 to |envs|
      invariant forall doc :: Lookup(home, doc) == Home(envs[..i], doc)
    {
      var e := envs[i];
      ghost var was := home;
      for j := 0 to |e.docIDs|
        invariant forall doc ::
                    Lookup(home, doc) == if doc in e.docIDs[..j] then Taken(Lookup(was, doc), e) else Lookup(was, doc)
      {
        var doc := e.docIDs[j];
        assert e.docIDs[..j + 1] == e.docIDs[..j] + [doc];
        ActedLaterIsStrictTotalOrder(e, e, e);
        if doc !in home || ActedLater(e, home[doc]) {
          home := home[doc := e];
        }
      }
      assert e.docIDs[..|e.docIDs|] == e.docIDs;
      assert envs[..i + 1][..i] == envs[..i];
      forall doc ensures Lookup(home, doc) == Home(envs[..i + 1], doc) {
        assert Lookup(was, doc) == Home(envs[..i], doc);
      }
    }
    assert envs[..|envs|] == envs;

    var keep := IdsOf(home);
    forall id
      ensures id in keep <==> HomeOfSome(envs, id)
    {
      assert forall doc :: Lookup(home, doc) == Home(envs, doc);
      if id in keep {
        var doc :| doc in home && home[doc].id == id;
        assert Home(envs, doc) == Some(home[doc]);
      }
      if HomeOfSome(envs, id) {
        var doc :| Home(envs, doc).Some? && Home(envs, doc).value.id == id;
        assert Lookup(home, doc).Some?;
      }
    }

    out := [];
    for i := 0 to |envs|
      invariant out == Filter(envs[..i], Survives(envs))
    {
      var e := envs[i];
      FilterStep(envs, Survives(envs), i);
      if |e.docIDs| == 0 || e.id in keep {
        out := out + [e];
      }
    }
    assert envs[..|envs|] == envs;
  }

  /** `h` is the envelope that acted last among those naming `doc`: what the loop computes, stated without it. */
  ghost predicate LatestFor(envs: seq<Summary>, h: Summary, doc: string) {
    && h in envs && doc in h.docIDs
    && forall e | e in envs && doc in e.docIDs && e != h :: ActedLater(h, e)
  }

  /** One envelope, one identifier. */
  ghost predicate UniqueIds(envs: seq<Summary>) {
    forall a, b | a in envs && b in envs && a.id == b.id :: a == b
  }

  lemma {:induction false} HomeIsUnbeaten(envs: seq<Summary>, doc: string)
    ensures Home(envs, doc).None? ==> forall e | e in envs :: doc !in e.docIDs
    ensures Home(envs, doc).Some? ==>
              var h := Home(envs, doc).value;
              h in envs && doc in h.docIDs && forall e | e in envs && doc in e.docIDs :: !ActedLater(e, h)
  {
    if envs != [] {
      var init, last := envs[..|envs| - 1], envs[|envs| - 1];
      assert envs == init + [last];
      HomeIsUnbeaten(init, doc);
      ActedLaterIsStrictTotalOrder(last, last, last);
      if Home(envs, doc).Some? {
        var h := Home(envs, doc).value;
        forall e | e in envs && doc in e.docIDs
          ensures !ActedLater(e, h)
        {
          if e in init && h == last && Home(init, doc).Some? {
            ActedLaterIsStrictTotalOrder(e, last, Home(init, doc).value);
          }
        }
      }
    }
  }

  lemma HomeIsLatest(envs: seq<Summary>, doc: string, h: Summary)
    requires UniqueIds(envs)
    ensures Home(envs, doc) == Some(h) <==> LatestFor(envs, h, doc)
  {
    HomeIsUnbeaten(envs, doc);
    forall a, b | a in envs && b in envs && a != b
      ensures ActedLater(a, b) || ActedLater(b, a)
      ensures !(ActedLater(a, b) && ActedLater(b, a))
    {
      ActedLaterIsStrictTotalOrder(a, b, b);
    }
  }

  /** Exactly which envelopes the reduction keeps. */
  lemma SurvivesExactly(envs: seq<Summary>, e: Summary)
    requires UniqueIds(envs) && e in envs
    ensures Survives(envs)(e) <==> e.docIDs == [] || exists doc :: LatestFor(envs, e, doc)
  {
    if HomeOfSome(envs, e.id) {
      var doc :| Home(envs, doc).Some? && Home(envs, doc).value.id == e.id;
      HomeIsUnbeaten(envs, doc);
      HomeIsLatest(envs, doc, e);
    }
    if doc :| LatestFor(envs, e, doc) {
      HomeIsLatest(envs, doc, e);
    }
  }

  /** The surviving envelopes, with their multiplicities, do not depend on the order of the input. */
  lemma SurvivorsIgnoreOrder(envs: seq<Summary>, other: seq<Summary>)
    requires UniqueIds(envs) && multiset(envs) == multiset(other)
    ensures multiset(Filter(envs, Survives(envs))) == multiset(Filter(other, Survives(other)))
  {
    assert forall e :: e in envs <==> e in multiset(envs);
    assert forall e :: e in other <==> e in multiset(other);
    forall e
      ensures multiset(Filter(envs, Survives(envs)))[e] == multiset(Filter(other, Survives(other)))[e]
    {
      FilterMultiplicity(envs, Survives(envs), e);
      FilterMultiplicity(other, Survives(other), e);
      if e in envs {
        SurvivesExactly(envs, e);
        SurvivesExactly(other, e);
        assert forall doc :: LatestFor(envs, e, doc) <==> LatestFor(other, e, doc);
      }
    }
  }

  /** No document loses its row: one named by the input is named by a survivor. */
  lemma EveryDocumentKeepsARow(envs: seq<Summary>, e: Summary, doc: string)
    requires e in envs && doc in e.docIDs
    ensures exists s :: s in Filter(envs, Survives(envs)) && doc in s.docIDs
  {
    HomeIsUnbeaten(envs, doc);
    var h := Home(envs, doc).value;
    FilterMember(envs, Survives(envs), h);
  }

  lemma ReductionIsIdempotent(envs: seq<Summary>)
    requires UniqueIds(envs)
    ensures var out := Filter(envs, Survives(envs)); Filter(out, Survives(out)) == out
  {
    var out := Filter(envs, Survives(envs));
    FilterMembers(envs, Survives(envs));
    forall e | e in out
      ensures Survives(out)(e)
    {
      SurvivesExactly(envs, e);
      SurvivesExactly(out, e);
      if doc :| LatestFor(envs, e, doc) {
        assert LatestFor(out, e, doc);
      }
    }
    FilterAll(out, Survives(out));
  }

  /** Where every envelope holds at most one document, a document has one row. */
  lemma OneRowPerDocument(envs: seq<Summary>, a: Summary, b: Summary, doc: string)
    requires UniqueIds(envs)
    requires forall e | e in envs :: |e.docIDs| <= 1
    requires a in Filter(envs, Survives(envs)) && b in Filter(envs, Survives(envs))
    requires doc in a.docIDs && doc in b.docIDs
    ensures a == b
  {
    FilterMembers(envs, Survives(envs));
    SurvivesExactly(envs, a);
    SurvivesExactly(envs, b);
    assert a.docIDs == [doc] && b.docIDs == [doc];
    assert LatestFor(envs, a, doc) && LatestFor(envs, b, doc);
    ActedLaterIsStrictTotalOrder(a, b, b);
  }

  /** Exactly when a document has one row: no other envelope naming it is the latest for anything. */
  lemma OneRowExactly(envs: seq<Summary>, h: Summary, doc: string)
    requires UniqueIds(envs) && LatestFor(envs, h, doc)
    ensures (forall e | e in Filter(envs, Survives(envs)) && doc in e.docIDs :: e == h) <==>
            (forall e, other | e in envs && doc in e.docIDs && e != h && other in e.docIDs ::
              !LatestFor(envs, e, other))
  {
    FilterMembers(envs, Survives(envs));
    forall e | e in envs
      ensures Survives(envs)(e) <==> e.docIDs == [] || exists d :: LatestFor(envs, e, d)
    {
      SurvivesExactly(envs, e);
    }
  }

  function Envelope(id: string, status: string, updatedAt: string, docIDs: seq<string>): Summary {
    Summary(id, "", status, "", 1, "", updatedAt, docIDs, 0, 0, false, "")
  }

  lemma PairFilter<T>(a: T, b: T, keep: T -> bool)
    ensures Filter([a, b], keep) == (if keep(a) then [a] else []) + if keep(b) then [b] else []
  {
    assert [a, b][..1] == [a];
    SingleFilter(a, keep);
  }

  /** Of two envelopes with one timestamp, the one with the larger identifier acted later. */
  lemma LaterById(a: Summary, b: Summary)
    requires a.updatedAt == b.updatedAt && a.id == "1" && b.id == "2"
    ensures ActedLater(b, a) && !ActedLater(a, b)
  {
    assert "1"[0] == '1' && "2"[0] == '2';
    ActedLaterIsStrictTotalOrder(a, b, a);
  }

  /** With several documents in one envelope the same document can stand in two rows. */
  lemma SharedDocumentHasTwoRows()
    ensures exists envs: seq<Summary> ::
              UniqueIds(envs) && |envs| == 2 && "d" in envs[0].docIDs && "d" in envs[1].docIDs &&
              Filter(envs, Survives(envs)) == envs
  {
    var a := Envelope("1", "sent", "", ["d", "x"]);
    var b := Envelope("2", "sent", "", ["d"]);
    assert a.docIDs[0] == "d" && a.docIDs[1] == "x" && b.docIDs[0] == "d";
    LaterById(a, b);
    BothSurvive(a, b, "x", "d");
    assert "d" in [a, b][0].docIDs && "d" in [a, b][1].docIDs;
  }

  lemma BothSurvive(a: Summary, b: Summary, x: string, doc: string)
    requires a.id != b.id && x in a.docIDs && x !in b.docIDs && doc in b.docIDs && ActedLater(b, a)
    ensures UniqueIds([a, b]) && Filter([a, b], Survives([a, b])) == [a, b]
  {
    var envs := [a, b];
    assert LatestFor(envs, a, x) && LatestFor(envs, b, doc);
    SurvivesExactly(envs, a);
    SurvivesExactly(envs, b);
    PairFilter(a, b, Survives(envs));
  }

  // The retention join.

  function Sooner(a: Option<int>, b: Option<int>): Option<int> {
    if a.None? then b else if b.None? then a else if b.value < a.value then b else a
  }

  ghost predicate RetainedUnder(c: ChainRow, id: string) {
    c.retentionUntil.Some? && id != "" && Addresses(c, id)
  }

  /** The first stage: the soonest instant recorded for one identifier. */
  ghost function SoonestUnder(chains: seq<ChainRow>, id: string): Option<int> {
    if chains == [] then None else
      var c := chains[|chains| - 1];
      Sooner(SoonestUnder(chains[..|chains| - 1], id), if RetainedUnder(c, id) then c.retentionUntil else None)
  }

  /** The second stage: the soonest over an envelope's documents. */
  ghost function SoonestOver(chains: seq<ChainRow>, docs: seq<string>): Option<int> {
    if docs == [] then None else
      Sooner(SoonestOver(chains, docs[..|docs| - 1]), SoonestUnder(chains, docs[|docs| - 1]))
  }

  ghost function Retained(e: Summary, chains: seq<ChainRow>, format: int -> string): Summary {
    var t := SoonestOver(chains, e.docIDs);
    if t.None? then e else e.(retentionUntil := format(t.value))
  }

  method WithRetention(envs: seq<Summary>, chains: seq<ChainRow>, format: int -> string) returns (out: seq<Summary>)
    ensures |out| == |envs| && forall i | 0 <= i < |out| :: out[i] == Retained(envs[i], chains, format)
  {
    if |envs| == 0 || |chains| == 0 {
      forall i | 0 <= i < |envs| ensures SoonestOver(chains, envs[i].docIDs).None? {
        NoChainsNoRetention(envs[i].docIDs);
      }
      return envs;
    }
    var until := RetentionIndex(chains);
    out := [];
    for i := 0 to |envs|
      invariant |out| == i && forall k | 0 <= k < i :: out[k] == Retained(envs[k], chains, format)
    {
      var e := envs[i];
      var soonest: Option<int> := None;
      for j := 0 to |e.docIDs|
        invariant soonest == SoonestOver(chains, e.docIDs[..j])
      {
        var doc := e.docIDs[j];
        assert e.docIDs[..j + 1][..j] == e.docIDs[..j];
        assert Lookup(until, doc) == SoonestUnder(chains, doc);
        if doc !in until {
          continue;
        }
        if soonest.None? || until[doc] < soonest.value {
          soonest := Some(until[doc]);
        }
      }
      assert e.docIDs[..|e.docIDs|] == e.docIDs;
      if soonest.Some? {
        e := e.(retentionUntil := format(soonest.value));
      }
      out := out + [e];
    }
  }

  /** The first loop of `WithRetention`: the soonest instant under each root and head. */
  method RetentionIndex(chains: seq<ChainRow>) returns (until: map<string, int>)
    ensures forall id :: Lookup(until, id) == SoonestUnder(chains, id)
  {
    until := map[];
    for i := 0 to |chains|
      invariant forall id :: Lookup(until, id) == SoonestUnder(chains[..i], id)
    {
      var c := chains[i];
      ghost var was := until;
      assert chains[..i + 1][..i] == chains[..i];
      if c.retentionUntil.None? {
        continue;
      }
      var t := c.retentionUntil.value;
      var ids := [c.chainRootID, c.id];
      for j := 0 to 2
        invariant forall id ::
                    Lookup(until, id) ==
                    if id != "" && id in ids[..j] then Sooner(Lookup(was, id), Some(t)) else Lookup(was, id)
      {
        var id := ids[j];
        assert ids[..j + 1] == ids[..j] + [id];
        if id == "" {
          continue;
        }
        if id !in until || t < until[id] {
          until := until[id := t];
        }
      }
      assert ids[..2] == ids;
      forall id
        ensures Lookup(until, id) == SoonestUnder(chains[..i + 1], id)
      {
        assert Lookup(was, id) == SoonestUnder(chains[..i], id);
      }
    }
    assert chains[..|chains|] == chains;
  }

  lemma {:induction false} NoChainsNoRetention(docs: seq<string>)
    ensures SoonestOver([], docs).None?
  {
    if docs != [] {
      NoChainsNoRetention(docs[..|docs| - 1]);
    }
  }

  /** The chains an envelope's retention can come from. */
  ghost predicate Holds(e: Summary, c: ChainRow) {
    && c.retentionUntil.Some?
    && exists doc :: doc in e.docIDs && doc != "" && (doc == c.chainRootID || doc == c.id)
  }

  lemma HoldsUnderSome(e: Summary, c: ChainRow)
    ensures Holds(e, c) <==> exists id :: id in e.docIDs && RetainedUnder(c, id)
  {
    if Holds(e, c) {
      var doc :| doc in e.docIDs && doc != "" && (doc == c.chainRootID || doc == c.id);
      assert RetainedUnder(c, doc);
    }
  }

  /** `t` is the direct minimum over all those chains. */
  ghost predicate DirectMinimum(t: int, e: Summary, chains: seq<ChainRow>) {
    && (exists c :: c in chains && Holds(e, c) && c.retentionUntil == Some(t))
    && forall c | c in chains && Holds(e, c) :: t <= c.retentionUntil.value
  }

  lemma {:induction false} SoonestUnderIsMinimum(chains: seq<ChainRow>, id: string)
    ensures SoonestUnder(chains, id).None? ==> forall c | c in chains :: !RetainedUnder(c, id)
    ensures SoonestUnder(chains, id).Some? ==>
              && (exists c :: c in chains && RetainedUnder(c, id) && c.retentionUntil == SoonestUnder(chains, id))
              && forall c | c in chains && RetainedUnder(c, id) ::
                   SoonestUnder(chains, id).value <= c.retentionUntil.value
  {
    if chains != [] {
      var init, last := chains[..|chains| - 1], chains[|chains| - 1];
      assert chains == init + [last];
      SoonestUnderIsMinimum(init, id);
    }
  }

  lemma {:induction false} SoonestOverIsMinimum(chains: seq<ChainRow>, docs: seq<string>)
    ensures SoonestOver(chains, docs).None? ==> forall c, id | c in chains && id in docs :: !RetainedUnder(c, id)
    ensures SoonestOver(chains, docs).Some? ==>
              && (exists c, id :: c in chains && id in docs && RetainedUnder(c, id)
                    && c.retentionUntil == SoonestOver(chains, docs))
              && forall c, id | c in chains && id in docs && RetainedUnder(c, id) ::
                   SoonestOver(chains, docs).value <= c.retentionUntil.value
  {
    if docs != [] {
      var init, last := docs[..|docs| - 1], docs[|docs| - 1];
      assert docs == init + [last];
      SoonestOverIsMinimum(chains, init);
      SoonestUnderIsMinimum(chains, last);
    }
  }

  /** The two-stage minimum is the direct one, and nothing but the retention field ever changes. */
  lemma RetainedIsDirectMinimum(e: Summary, chains: seq<ChainRow>, format: int -> string)
    ensures (forall c | c in chains :: !Holds(e, c)) ==> Retained(e, chains, format) == e
    ensures forall t :: DirectMinimum(t, e, chains) ==> Retained(e, chains, format) == e.(retentionUntil := format(t))
    ensures (exists c :: c in chains && Holds(e, c)) ==> exists t :: DirectMinimum(t, e, chains)
  {
    SoonestOverIsMinimum(chains, e.docIDs);
    forall c ensures Holds(e, c) <==> exists id :: id in e.docIDs && RetainedUnder(c, id) { HoldsUnderSome(e, c); }
    var s := SoonestOver(chains, e.docIDs);
    if s.Some? {
      var c, id :| c in chains && id in e.docIDs && RetainedUnder(c, id) && c.retentionUntil == s;
      assert Holds(e, c);
      assert DirectMinimum(s.value, e, chains);
      forall t | DirectMinimum(t, e, chains)
        ensures t == s.value
      {
        var b :| b in chains && Holds(e, b) && b.retentionUntil == Some(t);
      }
    }
  }

  // The composition.

  ghost predicate Covered(c: ChainRow, envs: seq<Summary>, tasks: seq<SigningTask>) {
    (exists e :: e in envs && Names(e, c)) || (exists t :: t in tasks && Names(t.envelope, c))
  }

  ghost function Uncovered(envs: seq<Summary>, tasks: seq<SigningTask>): ChainRow -> bool {
    (c: ChainRow) => !Covered(c, envs, tasks)
  }

  ghost function Reduced(envs: seq<Summary>, chains: seq<ChainRow>): seq<Summary> {
    var standing := Filter(envs, StillStands(chains));
    Filter(standing, Survives(standing))
  }

  ghost function Composed(tasks: seq<SigningTask>, envs: seq<Summary>, chains: seq<ChainRow>,
                          format: int -> string): Response {
    var rows := Reduced(envs, chains);
    Response(tasks, seq(|rows|, i requires 0 <= i < |rows| => Retained(rows[i], chains, format)),
      Filter(chains, Uncovered(envs, tasks)))
  }

  method Compose(tasks: seq<SigningTask>, envs: seq<Summary>, chains: seq<ChainRow>, format: int -> string)
      returns (r: Response)
    ensures r == Composed(tasks, envs, chains, format)
  {
    var covered: set<string> := {};
    for i := 0 to |envs|
      invariant forall id :: id in covered <==> exists e :: e in envs[..i] && id in e.docIDs
    {
      covered := CoverAll(covered, envs[i].docIDs);
      assert envs[..i + 1] == envs[..i] + [envs[i]];
    }
    assert envs[..|envs|] == envs;
    for i := 0 to |tasks|
      invariant forall id :: id in covered <==>
                  (exists e :: e in envs && id in e.docIDs) || (exists t :: t in tasks[..i] && id in t.envelope.docIDs)
    {
      covered := CoverAll(covered, tasks[i].envelope.docIDs);
      assert tasks[..i + 1] == tasks[..i] + [tasks[i]];
    }
    assert tasks[..|tasks|] == tasks;
    var standalone: seq<ChainRow> := [];
    for i := 0 to |chains|
      invariant standalone == Filter(chains[..i], Uncovered(envs, tasks))
    {
      var c := chains[i];
      FilterStep(chains, Uncovered(envs, tasks), i);
      if c.chainRootID in covered || c.id in covered {
        continue;
      }
      standalone := standalone + [c];
    }
    assert chains[..|chains|] == chains;
    var standing := WithoutDestroyedChains(envs, chains);
    var latest := LatestPerChain(standing);
    var rows := WithRetention(latest, chains, format);
    r := Response(tasks, rows, standalone);
  }

  method CoverAll(covered: set<string>, docs: seq<string>) returns (r: set<string>)
    ensures forall id :: id in r <==> id in covered || id in docs
  {
    r := covered;
    for j := 0 to |docs|
      invariant forall id :: id in r <==> id in covered || id in docs[..j]
    {
      r := r + {docs[j]};
      assert docs[..j + 1] == docs[..j] + [docs[j]];
    }
    assert docs[..|docs|] == docs;
  }

  ghost predicate Shown(c: ChainRow, r: Response) {
    || c in r.chains
    || (exists t :: t in r.tasks && Names(t.envelope, c))
    || (exists e :: e in r.envelopes && Names(e, c))
  }

  lemma RowsName(tasks: seq<SigningTask>, envs: seq<Summary>, chains: seq<ChainRow>, format: int -> string, c: ChainRow)
    ensures (exists e :: e in Composed(tasks, envs, chains, format).envelopes && Names(e, c)) <==>
            (exists e :: e in Reduced(envs, chains) && Names(e, c))
  {
    var rows, shown := Reduced(envs, chains), Composed(tasks, envs, chains, format).envelopes;
    if e :| e in shown && Names(e, c) {
      var i :| 0 <= i < |shown| && shown[i] == e;
      assert rows[i] in rows && Names(rows[i], c);
    }
    if e :| e in rows && Names(e, c) {
      var i :| 0 <= i < |rows| && rows[i] == e;
      assert shown[i] in shown && Names(shown[i], c);
    }
  }

  lemma ReducedNames(envs: seq<Summary>, chains: seq<ChainRow>, c: ChainRow)
    ensures (exists e :: e in Reduced(envs, chains) && Names(e, c)) <==>
            (exists e :: e in envs && Names(e, c) && StillStands(chains)(e))
  {
    var standing := Filter(envs, StillStands(chains));
    FilterMembers(envs, StillStands(chains));
    FilterMembers(standing, Survives(standing));
    if e :| e in envs && Names(e, c) && StillStands(chains)(e) {
      var doc := if c.chainRootID in e.docIDs then c.chainRootID else c.id;
      EveryDocumentKeepsARow(standing, e, doc);
      var s :| s in Filter(standing, Survives(standing)) && doc in s.docIDs;
      assert Names(s, c);
    }
  }

  /**
   An envelope naming a listed chain is dropped exactly if it is terminal and every listed identifier it names is
   the empty one.
   */
  lemma DroppedExactly(e: Summary, chains: seq<ChainRow>, c: ChainRow)
    requires c in chains && Names(e, c)
    ensures !StillStands(chains)(e) <==>
            Terminal(e.status) && forall doc, d | doc in e.docIDs && d in chains && Addresses(d, doc) :: doc == ""
  {
    assert e.docIDs != [];
    if !StillStands(chains)(e) {
      forall doc, d | doc in e.docIDs && d in chains && Addresses(d, doc)
        ensures doc == ""
      {
        if doc != "" { assert Live(chains, doc); }
      }
    }
  }

  /**
   Exactly which chain rows a dashboard loses: those an envelope names and no task, where every envelope naming the row
   is terminal and names no identifier of the listing but the empty one. The row's own root or head is then empty.
   */
  lemma RowLostExactly(tasks: seq<SigningTask>, envs: seq<Summary>, chains: seq<ChainRow>,
                       format: int -> string, c: ChainRow)
    requires c in chains
    ensures !Shown(c, Composed(tasks, envs, chains, format)) <==>
            && (exists e :: e in envs && Names(e, c))
            && (forall t | t in tasks :: !Names(t.envelope, c))
            && (forall e | e in envs && Names(e, c) ::
                  && Terminal(e.status)
                  && forall doc, d | doc in e.docIDs && d in chains && Addresses(d, doc) :: doc == "")
    ensures !Shown(c, Composed(tasks, envs, chains, format)) ==>
              && (c.chainRootID == "" || c.id == "")
              && exists e :: e in envs && Names(e, c) && Terminal(e.status) && "" in e.docIDs
  {
    FilterMember(chains, Uncovered(envs, tasks), c);
    RowsName(tasks, envs, chains, format, c);
    ReducedNames(envs, chains, c);
    forall e | e in envs && Names(e, c)
      ensures !StillStands(chains)(e) <==>
              Terminal(e.status) && forall doc, d | doc in e.docIDs && d in chains && Addresses(d, doc) :: doc == ""
    {
      DroppedExactly(e, chains, c);
    }
    if !Shown(c, Composed(tasks, envs, chains, format)) {
      var e :| e in envs && Names(e, c);
      var doc := if c.chainRootID in e.docIDs then c.chainRootID else c.id;
      assert Addresses(c, doc) && doc == "";
    }
  }

  /**
   The row model: each chain is standalone, with nothing shown naming it, or it is not and some shown row names it.
   */
  lemma EveryChainHasOnePlace(tasks: seq<SigningTask>, envs: seq<Summary>, chains: seq<ChainRow>,
                              format: int -> string, c: ChainRow)
    requires c in chains
    requires forall e | e in envs :: "" !in e.docIDs
    ensures var r := Composed(tasks, envs, chains, format);
            && (c in r.chains <==> !Covered(c, envs, tasks))
            && (c in r.chains <==>
                !((exists t :: t in r.tasks && Names(t.envelope, c)) || (exists e :: e in r.envelopes && Names(e, c))))
  {
    FilterMember(chains, Uncovered(envs, tasks), c);
    RowsName(tasks, envs, chains, format, c);
    ReducedNames(envs, chains, c);
    forall e | e in envs && Names(e, c)
      ensures StillStands(chains)(e)
    {
      var doc := if c.chainRootID in e.docIDs then c.chainRootID else c.id;
      assert Addresses(c, doc) && Live(chains, doc);
      assert Resolves(e, chains);
    }
  }

  /** Standalone rows are the uncovered ones of the listing, in its order and as often as it has them. */
  lemma StandaloneRowsKeepOrder(tasks: seq<SigningTask>, envs: seq<Summary>, chains: seq<ChainRow>,
                                format: int -> string, c: ChainRow, k: nat)
    ensures var r := Composed(tasks, envs, chains, format);
            var at := Positions(chains, Uncovered(envs, tasks));
            && multiset(r.chains)[c] == (if Covered(c, envs, tasks) then 0 else multiset(chains)[c])
            && Increasing(at)
            && (k < |r.chains| ==> k < |at| && at[k] < |chains| && r.chains[k] == chains[at[k]])
  {
    FilterMultiplicity(chains, Uncovered(envs, tasks), c);
    PositionsIncrease(chains, Uncovered(envs, tasks));
    if k < |Filter(chains, Uncovered(envs, tasks))| {
      FilterPositions(chains, Uncovered(envs, tasks), k);
    }
  }

  /**
   A document with an empty identifier can cost a chain its row: the subtraction matches it, the live set does not.
   */
  lemma EmptyIdLosesARow(format: int -> string)
    ensures exists envs, chains, c :: c in chains && !Shown(c, Composed([], envs, chains, format))
  {
    var e := Envelope("1", "completed", "", [""]);
    var c := ChainRow("", "h", "", "", "", None);
    assert "" in e.docIDs && e in [e] && Names(e, c) && Terminal("completed");
    assert forall doc | doc in e.docIDs :: doc == "";
    RowLostExactly([], [e], [c], format, c);
    assert c in [c] && !Shown(c, Composed([], [e], [c], format));
  }

  /** Reducing first lets a doomed envelope evict a standing one: the two passes do not commute. */
  lemma FilterThenReduceMatters()
    ensures exists envs, chains ::
              Reduced(envs, chains) != [] && Filter(Filter(envs, Survives(envs)), StillStands(chains)) == []
  {
    var a := Envelope("1", "sent", "", ["gone"]);
    var b := Envelope("2", "completed", "", ["gone"]);
    var envs, chains := [a, b], [ChainRow("live", "live", "", "", "", None)];
    OnlyTheLaterSurvives(a, b);
    forall doc | doc in b.docIDs ensures !Live(chains, doc) { assert doc == "gone"; }
    PairFilter(a, b, StillStands(chains));
    var standing := Filter(envs, StillStands(chains));
    assert standing == [a];
    EveryDocumentKeepsARow(standing, a, a.docIDs[0]);
    SingleFilter(b, StillStands(chains));
    assert Reduced(envs, chains) != [];
  }

  lemma OnlyTheLaterSurvives(a: Summary, b: Summary)
    requires a == Envelope("1", "sent", "", ["gone"]) && b == Envelope("2", "completed", "", ["gone"])
    ensures Filter([a, b], Survives([a, b])) == [b]
  {
    var envs := [a, b];
    LaterById(a, b);
    SurvivesExactly(envs, a);
    SurvivesExactly(envs, b);
    assert LatestFor(envs, b, "gone") by { assert b.docIDs[0] == "gone"; }
    forall doc ensures !LatestFor(envs, a, doc) {
      assert doc in a.docIDs ==> doc in b.docIDs;
    }
    PairFilter(a, b, Survives(envs));
  }

  lemma SingleFilter<T>(a: T, keep: T -> bool)
    ensures Filter([a], keep) == if keep(a) then [a] else []
  {
    assert [a][..0] == [];
    assert Filter([a], keep) == Filter([], keep) + if keep(a) then [a] else [];
  }
}
