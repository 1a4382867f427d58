/** Values and sequence facts the other modules share. */
module Common {

  datatype Option<+T> = None | Some(value: T)

  datatype Result<+T, +E> = Ok(value: T) | Err(error: E)

  /** A stored value and the last instant it is good for. */
  datatype Entry<T> = Entry(data: T, expires: int)

  /** Equality is still live. */
  predicate Expired<T>(e: Entry<T>, now: int) {
    now > e.expires
  }

  /** What a reader gets from an entry it found, or not, once the clock is read. */
  function Opened<T>(e: Option<Entry<T>>, now: int): Option<T> {
    if e.None? || Expired(e.value, now) then None else Some(e.value.data)
  }

  function Lookup<K, V>(m: map<K, V>, k: K): Option<V> {
    if k in m then Some(m[k]) else None
  }

  /** The elements of `s` that satisfy `keep`, in order: what every "append unless" loop of the source builds. */
  ghost function Filter<T>(s: seq<T>, keep: T -> bool): seq<T> {
    if s == [] then [] else
      Filter(s[..|s| - 1], keep) + if keep(s[|s| - 1]) then [s[|s| - 1]] else []
  }

  lemma FilterStep<T>(s: seq<T>, keep: T -> bool, i: nat)
    requires i < |s|
    ensures Filter(s[..i + 1], keep) == Filter(s[..i], keep) + if keep(s[i]) then [s[i]] else []
  {
    assert s[..i + 1][..i] == s[..i];
  }

  lemma {:induction false} FilterMember<T>(s: seq<T>, keep: T -> bool, x: T)
    ensures x in Filter(s, keep) <==> x in s && keep(x)
  {
    if s != [] {
      var n := |s| - 1;
      FilterMember(s[..n], keep, x);
      assert s == s[..n] + [s[n]];
    }
  }

  lemma FilterMembers<T(!new)>(s: seq<T>, keep: T -> bool)
    ensures forall x :: x in Filter(s, keep) <==> x in s && keep(x)
  {
    forall x ensures x in Filter(s, keep) <==> x in s && keep(x) {
      FilterMember(s, keep, x);
    }
  }

  ghost predicate Increasing(idx: seq<nat>) {
    forall i, j | 0 <= i < j < |idx| :: idx[i] < idx[j]
  }

  /** The kept positions of `s`. */
  ghost function Positions<T>(s: seq<T>, keep: T -> bool): seq<nat> {
    if s == [] then [] else
      Positions(s[..|s| - 1], keep) + if keep(s[|s| - 1]) then [|s| - 1] else []
  }

  lemma {:induction false} PositionsExact<T>(s: seq<T>, keep: T -> bool, i: nat)
    ensures i in Positions(s, keep) <==> i < |s| && keep(s[i])
  {
    if s != [] {
      PositionsExact(s[..|s| - 1], keep, i);
    }
  }

  lemma {:induction false} PositionsIncrease<T>(s: seq<T>, keep: T -> bool)
    ensures Increasing(Positions(s, keep))
  {
    if s != [] {
      var init := s[..|s| - 1];
      PositionsIncrease(init, keep);
      forall k | 0 <= k < |Positions(init, keep)|
        ensures Positions(init, keep)[k] < |init|
      {
        PositionsExact(init, keep, Positions(init, keep)[k]);
      }
    }
  }

  /** `Filter` without recursion: the elements at the kept positions, in increasing order of position. */
  lemma {:induction false} FilterPositions<T>(s: seq<T>, keep: T -> bool, k: nat)
    requires k < |Filter(s, keep)|
    ensures |Positions(s, keep)| == |Filter(s, keep)|
    ensures Positions(s, keep)[k] < |s| && Filter(s, keep)[k] == s[Positions(s, keep)[k]]
  {
    var n := |s| - 1;
    var init := s[..n];
    if k < |Filter(init, keep)| {
      FilterPositions(init, keep, k);
    } else if k > 0 {
      FilterPositions(init, keep, k - 1);
    } else {
      NothingKept(init, keep);
    }
  }

  lemma {:induction false} NothingKept<T>(s: seq<T>, keep: T -> bool)
    requires Filter(s, keep) == []
    ensures Positions(s, keep) == []
  {
    if s != [] {
      NothingKept(s[..|s| - 1], keep);
    }
  }

  lemma {:induction false} PositionsCount<T>(s: seq<T>, keep: T -> bool)
    ensures |Positions(s, keep)| == |Filter(s, keep)|
  {
    if s != [] {
      PositionsCount(s[..|s| - 1], keep);
    }
  }

  /** What is kept, by position: a list that filters another is its elements at the kept positions. */
  lemma FilteredAt<T>(s: seq<T>, keep: T -> bool) returns (at: seq<nat>)
    ensures |at| == |Filter(s, keep)| && Increasing(at)
    ensures forall k | 0 <= k < |at| :: at[k] < |s| && Filter(s, keep)[k] == s[at[k]]
    ensures forall i: nat | i < |s| :: i in at <==> keep(s[i])
  {
    at := Positions(s, keep);
    PositionsCount(s, keep);
    PositionsIncrease(s, keep);
    forall k | 0 <= k < |at|
      ensures at[k] < |s| && Filter(s, keep)[k] == s[at[k]]
    {
      FilterPositions(s, keep, k);
    }
    forall i: nat | i < |s|
      ensures i in at <==> keep(s[i])
    {
      PositionsExact(s, keep, i);
    }
  }

  lemma {:induction false} FilterTwice<T>(s: seq<T>, p: T -> bool, q: T -> bool, both: T -> bool)
    requires forall x :: both(x) <==> p(x) && q(x)
    ensures Filter(Filter(s, p), q) == Filter(s, both)
  {
    if s != [] {
      var n := |s| - 1;
      FilterTwice(s[..n], p, q, both);
      var init := Filter(s[..n], p);
      if p(s[n]) {
        assert (init + [s[n]])[..|init|] == init;
      } else {
        assert init + [] == init;
      }
    }
  }

  lemma {:induction false} FilterAll<T>(s: seq<T>, keep: T -> bool)
    requires forall x | x in s :: keep(x)
    ensures Filter(s, keep) == s
  {
    if s != [] {
      FilterAll(s[..|s| - 1], keep);
      assert s == s[..|s| - 1] + [s[|s| - 1]];
    }
  }

  /** How often `x` occurs is kept or cut to zero: filtering neither duplicates nor merges rows. */
  lemma {:induction false} FilterMultiplicity<T>(s: seq<T>, keep: T -> bool, x: T)
    ensures multiset(Filter(s, keep))[x] == if keep(x) then multiset(s)[x] else 0
  {
    if s != [] {
      var n := |s| - 1;
      assert s == s[..n] + [s[n]];
      FilterMultiplicity(s[..n], keep, x);
    }
  }
}
