/** What a dashboard shows, row by row and on the fields of the listings alone. */
module DashboardRows {
  import opened Common
  import opened Dashboard
  import opened Text

  /**
   The envelope's documents are destroyed: it is over, it has documents, and none resolves in a listing that lists
   any.
   */
  ghost predicate Destroyed(e: Summary, chains: seq<ChainRow>) {
    && chains != [] && e.docIDs != []
    && (e.status == "completed" || e.status == "declined" || e.status == "cancelled" || e.status == "expired")
    && forall doc, c | doc in e.docIDs && c in chains :: doc == "" || (doc != c.chainRootID && doc != c.id)
  }

  /** Exactly what the destroyed-chain filter drops. */
  lemma DestroyedExactly(e: Summary, chains: seq<ChainRow>)
    ensures !StillStands(chains)(e) <==> Destroyed(e, chains)
  {}

  /** `e` was touched last: by timestamp as text, then by identifier. */
  predicate TouchedAfter(e: Summary, other: Summary) {
    Less(other.updatedAt, e.updatedAt) || (other.updatedAt == e.updatedAt && Less(other.id, e.id))
  }

  lemma TouchedAfterIsActedLater(e: Summary, other: Summary)
    ensures TouchedAfter(e, other) <==> ActedLater(e, other)
  {
    LessIrreflexive(e.updatedAt);
  }

  /**
   Among the envelopes whose documents are not destroyed, `e` was touched last of those naming one of its documents.
   */
  ghost predicate LatestForADocument(envs: seq<Summary>, chains: seq<ChainRow>, e: Summary) {
    exists doc :: doc in e.docIDs && TouchedLastOver(envs, chains, e, doc)
  }

  ghost predicate TouchedLastOver(envs: seq<Summary>, chains: seq<ChainRow>, e: Summary, doc: string) {
    forall o | o in envs && !Destroyed(o, chains) && doc in o.docIDs && o != e :: TouchedAfter(e, o)
  }

  /** An envelope has a row exactly in these cases. */
  ghost predicate HasRow(envs: seq<Summary>, chains: seq<ChainRow>, e: Summary) {
    !Destroyed(e, chains) && (e.docIDs == [] || LatestForADocument(envs, chains, e))
  }

  lemma LatestAmongStanding(envs: seq<Summary>, chains: seq<ChainRow>, e: Summary, doc: string)
    requires e in envs && StillStands(chains)(e) && doc in e.docIDs
    ensures LatestFor(Filter(envs, StillStands(chains)), e, doc) <==> TouchedLastOver(envs, chains, e, doc)
  {
    FilterMembers(envs, StillStands(chains));
    forall o | o in envs
      ensures StillStands(chains)(o) <==> !Destroyed(o, chains)
      ensures TouchedAfter(e, o) <==> ActedLater(e, o)
    {
      DestroyedExactly(o, chains);
      TouchedAfterIsActedLater(e, o);
    }
  }

  lemma HasRowExactly(envs: seq<Summary>, chains: seq<ChainRow>, e: Summary)
    requires UniqueIds(envs) && e in envs
    ensures var standing := Filter(envs, StillStands(chains));
            StillStands(chains)(e) && Survives(standing)(e) <==> HasRow(envs, chains, e)
  {
    var standing := Filter(envs, StillStands(chains));
    FilterMembers(envs, StillStands(chains));
    DestroyedExactly(e, chains);
    if StillStands(chains)(e) {
      SurvivesExactly(standing, e);
      forall doc | doc in e.docIDs
        ensures LatestFor(standing, e, doc) <==> TouchedLastOver(envs, chains, e, doc)
      {
        LatestAmongStanding(envs, chains, e, doc);
      }
    }
  }

  /** A row is its envelope, with the soonest retention of the chains it names, if one has any, and else as it came. */
  ghost predicate RowOf(row: Summary, e: Summary, chains: seq<ChainRow>, format: int -> string) {
    if exists c :: c in chains && Holds(e, c) then
      exists t :: DirectMinimum(t, e, chains) && row == e.(retentionUntil := format(t))
    else row == e
  }

  lemma RetainedIsRow(e: Summary, chains: seq<ChainRow>, format: int -> string)
    ensures RowOf(Retained(e, chains, format), e, chains, format)
  {
    RetainedIsDirectMinimum(e, chains, format);
  }

  /** The rows stand in the order of the listing, one for each position whose envelope has a row and for no other. */
  ghost predicate RowsOf(rows: seq<Summary>, at: seq<nat>, envs: seq<Summary>, chains: seq<ChainRow>,
                         format: int -> string) {
    && |rows| == |at| && Increasing(at)
    && (forall k | 0 <= k < |at| :: at[k] < |envs| && RowOf(rows[k], envs[at[k]], chains, format))
    && forall i: nat | i < |envs| :: i in at <==> HasRow(envs, chains, envs[i])
  }

  /**
   The envelope rows. They stand in the order of the listing, one for each position whose envelope has a row and for no
   other, and each is its envelope with the soonest retention.
   */
  lemma EnvelopeRowsExactly(tasks: seq<SigningTask>, envs: seq<Summary>, chains: seq<ChainRow>, format: int -> string)
      returns (at: seq<nat>)
    requires UniqueIds(envs)
    ensures RowsOf(Composed(tasks, envs, chains, format).envelopes, at, envs, chains, format)
  {
    var rows := Composed(tasks, envs, chains, format).envelopes;
    var standing := Filter(envs, StillStands(chains));
    var both := (e: Summary) => StillStands(chains)(e) && Survives(standing)(e);
    FilterTwice(envs, StillStands(chains), Survives(standing), both);
    at := FilteredAt(envs, both);
    forall k | 0 <= k < |at|
      ensures RowOf(rows[k], envs[at[k]], chains, format)
    {
      RetainedIsRow(envs[at[k]], chains, format);
    }
    forall i: nat | i < |envs|
      ensures i in at <==> HasRow(envs, chains, envs[i])
    {
      HasRowExactly(envs, chains, envs[i]);
    }
  }

  /** No envelope of the owner and no signing task names the chain, by its root or its head. */
  ghost predicate StandsAlone(tasks: seq<SigningTask>, envs: seq<Summary>, c: ChainRow) {
    && (forall e | e in envs :: c.chainRootID !in e.docIDs && c.id !in e.docIDs)
    && forall t | t in tasks :: c.chainRootID !in t.envelope.docIDs && c.id !in t.envelope.docIDs
  }

  /**
   The standalone rows stand in the order of the listing, one for each position whose chain nothing names; the tasks
   are as they came.
   */
  lemma ChainRowsExactly(tasks: seq<SigningTask>, envs: seq<Summary>, chains: seq<ChainRow>, format: int -> string)
      returns (at: seq<nat>)
    ensures var r := Composed(tasks, envs, chains, format);
            && r.tasks == tasks && |r.chains| == |at| && Increasing(at)
            && (forall k | 0 <= k < |at| :: at[k] < |chains| && r.chains[k] == chains[at[k]])
            && (forall i: nat | i < |chains| :: i in at <==> StandsAlone(tasks, envs, chains[i]))
  {
    at := FilteredAt(chains, Uncovered(envs, tasks));
    forall i: nat | i < |chains|
      ensures Uncovered(envs, tasks)(chains[i]) <==> StandsAlone(tasks, envs, chains[i])
    {
      var c := chains[i];
      assert forall e :: Names(e, c) <==> c.chainRootID in e.docIDs || c.id in e.docIDs;
    }
  }

  lemma OneHasTheRow(envs: seq<Summary>, chains: seq<ChainRow>, a: Summary, b: Summary, doc: string)
    requires a in envs && b in envs && a.docIDs == [doc] && b.docIDs == [doc]
    requires HasRow(envs, chains, a) && HasRow(envs, chains, b)
    ensures a == b
  {
    if a != b {
      assert TouchedLastOver(envs, chains, a, doc) && TouchedLastOver(envs, chains, b, doc);
      TouchedAfterIsActedLater(a, b);
      TouchedAfterIsActedLater(b, a);
      ActedLaterIsStrictTotalOrder(a, b, a);
    }
  }

  lemma RowKeepsDocuments(row: Summary, e: Summary, chains: seq<ChainRow>, format: int -> string)
    requires RowOf(row, e, chains, format)
    ensures row.docIDs == e.docIDs
  {}

  lemma OneRowPerPosition(rows: seq<Summary>, at: seq<nat>, envs: seq<Summary>, chains: seq<ChainRow>,
                          format: int -> string, i: nat, j: nat, doc: string)
    requires RowsOf(rows, at, envs, chains, format) && forall e | e in envs :: |e.docIDs| <= 1
    requires forall k, l | 0 <= k < l < |envs| :: envs[k] != envs[l]
    requires i < |rows| && j < |rows| && doc in rows[i].docIDs && doc in rows[j].docIDs
    ensures i == j
  {
    var a, b := envs[at[i]], envs[at[j]];
    RowKeepsDocuments(rows[i], a, chains, format);
    RowKeepsDocuments(rows[j], b, chains, format);
    assert at[i] in at && at[j] in at;
    OneHasTheRow(envs, chains, a, b, doc);
  }

  /** Where every envelope holds at most one document, no document has two rows on the dashboard. */
  lemma NoDocumentTwice(tasks: seq<SigningTask>, envs: seq<Summary>, chains: seq<ChainRow>, format: int -> string,
                        i: nat, j: nat, doc: string)
    requires UniqueIds(envs) && (forall e | e in envs :: |e.docIDs| <= 1)
    requires forall k, l | 0 <= k < l < |envs| :: envs[k] != envs[l]
    requires var rows := Composed(tasks, envs, chains, format).envelopes;
             i < |rows| && j < |rows| && doc in rows[i].docIDs && doc in rows[j].docIDs
    ensures i == j
  {
    var at := EnvelopeRowsExactly(tasks, envs, chains, format);
    OneRowPerPosition(Composed(tasks, envs, chains, format).envelopes, at, envs, chains, format, i, j, doc);
  }
}
