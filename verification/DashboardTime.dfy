/**
 What the reduction's text comparison means for the reader of the dashboard: the row kept is the one that acted last.
 */
module DashboardTime {
  import opened Common
  import opened Dashboard
  import opened Text
  import Timestamps

  /** `e` carries, as text, the instant `at(e)`, with `width` digits of fraction. */
  ghost predicate WellStamped(e: Summary, at: Summary -> Timestamps.Stamp, width: nat) {
    Timestamps.Valid(at(e)) && |at(e).fraction| == width && e.updatedAt == Timestamps.Print(at(e))
  }

  /**
   Over timestamps of one width, every surviving envelope with documents acted no earlier than any other envelope
   over one of its documents.
   */
  lemma SurvivorActedLast(envs: seq<Summary>, h: Summary, at: Summary -> Timestamps.Stamp, width: nat)
    requires UniqueIds(envs)
    requires forall e | e in envs :: WellStamped(e, at, width)
    requires h in Filter(envs, Survives(envs)) && h.docIDs != []
    ensures exists doc :: doc in h.docIDs &&
              forall e | e in envs && doc in e.docIDs :: Timestamps.Instant(at(e)) <= Timestamps.Instant(at(h))
  {
    FilterMember(envs, Survives(envs), h);
    SurvivesExactly(envs, h);
    var doc :| LatestFor(envs, h, doc);
    forall e | e in envs && doc in e.docIDs
      ensures Timestamps.Instant(at(e)) <= Timestamps.Instant(at(h))
    {
      if e != h {
        Timestamps.FixedWidthTextOrder(at(e), at(h));
        Timestamps.FixedWidthTextOrder(at(h), at(e));
        if Less(h.updatedAt, e.updatedAt) {
          TransitiveWhereOrdered(h.updatedAt, e.updatedAt, h.updatedAt);
          LessIrreflexive(h.updatedAt);
        }
      }
    }
  }
}
