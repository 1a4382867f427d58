/**
 The remembered offer of a slow source (clients/offer.go): one question per time to live, and what is answered
 meanwhile.
 */
module OfferedFlows {
  import opened Common

  /** `Stale` wraps the failure when an earlier answer is still returned. */
  datatype Failure = Raw(cause: string) | Stale(cause: string)

  /** One question to the source. A source that succeeds returns a list, empty or not. */
  datatype Ask = Ask(begin: int, end: int, reply: Result<seq<string>, string>)

  // What a history of questions says must be returned.

  ghost function LastAnswer(asks: seq<Ask>): Option<seq<string>> {
    if asks == [] then None
    else if asks[|asks| - 1].reply.Ok? then Some(asks[|asks| - 1].reply.value)
    else LastAnswer(asks[..|asks| - 1])
  }

  ghost function Verdict(asks: seq<Ask>): Option<Failure> {
    if asks == [] || asks[|asks| - 1].reply.Ok? then None
    else if LastAnswer(asks).Some? then Some(Stale(asks[|asks| - 1].reply.error))
    else Some(Raw(asks[|asks| - 1].reply.error))
  }

  /** Whether a call at `now` asks. */
  ghost predicate Due(asks: seq<Ask>, now: int, ttl: int) {
    asks == [] || now - asks[|asks| - 1].end >= ttl
  }

  class OfferedFlows {
    const ttl: int
    var asked: bool
    var at: int
    var flows: Option<seq<string>>
    var err: Option<Failure>
    ghost var asks: seq<Ask>

    ghost predicate Valid()
      reads this
    {
      && (asked <==> asks != []) && (asked ==> at == asks[|asks| - 1].end)
      && flows == LastAnswer(asks) && err == Verdict(asks)
    }

    constructor (ttl: int)
      ensures Valid() && asks == [] && this.ttl == ttl
    {
      this.ttl, asked, at, flows, err, asks := ttl, false, 0, None, None, [];
    }

    /** `reply` is what the source says if it is asked, and `later` the clock when it has. */
    method Get(now: int, reply: Result<seq<string>, string>, later: int)
        returns (offered: Option<seq<string>>, failure: Option<Failure>)
      requires Valid()
      modifies this
      ensures Valid()
      ensures asks == old(asks) + if Due(old(asks), now, ttl) then [Ask(now, later, reply)] else []
      ensures offered == LastAnswer(asks) && failure == Verdict(asks)
    {
      if asked && now - at < ttl {
        return flows, err;
      }
      asked, at := true, later;
      asks := asks + [Ask(now, later, reply)];
      assert asks[..|asks| - 1] == old(asks);
      if reply.Err? {
        err := Some(Raw(reply.error));
        if flows.Some? {
          err := Some(Stale(reply.error));
        }
        return flows, err;
      }
      flows, err := Some(reply.value), None;
      return flows, None;
    }
  }

  // Runs: the lock lets one call end before the next begins.

  datatype Call = Call(now: int, reply: Result<seq<string>, string>, later: int)

  ghost predicate Monotone(calls: seq<Call>) {
    && (forall i | 0 <= i < |calls| :: calls[i].now <= calls[i].later)
    && forall i, j | 0 <= i < j < |calls| :: calls[i].later <= calls[j].now
  }

  /** The questions a sequence of calls asks, by the rule of `Get`. */
  ghost function Asks(calls: seq<Call>, ttl: int): seq<Ask> {
    if calls == [] then [] else
      var before, c := Asks(calls[..|calls| - 1], ttl), calls[|calls| - 1];
      before + if Due(before, c.now, ttl) then [Ask(c.now, c.later, c.reply)] else []
  }

  /** The first answers to these calls are what the questions so far call for. */
  ghost predicate Answered(calls: seq<Call>, ttl: int, offered: seq<Option<seq<string>>>,
                           failures: seq<Option<Failure>>) {
    && |offered| == |failures| <= |calls|
    && forall i | 0 <= i < |offered| ::
         && offered[i] == LastAnswer(Asks(calls[..i + 1], ttl))
         && failures[i] == Verdict(Asks(calls[..i + 1], ttl))
  }

  lemma AnsweredGrows(calls: seq<Call>, ttl: int, offered: seq<Option<seq<string>>>, failures: seq<Option<Failure>>,
                      f: Option<seq<string>>, e: Option<Failure>)
    requires Answered(calls, ttl, offered, failures) && |offered| < |calls|
    requires f == LastAnswer(Asks(calls[..|offered| + 1], ttl)) && e == Verdict(Asks(calls[..|offered| + 1], ttl))
    ensures Answered(calls, ttl, offered + [f], failures + [e])
  {}

  /** A run of the memory: any calls, one after another. */
  method Use(o: OfferedFlows, calls: seq<Call>)
      returns (offered: seq<Option<seq<string>>>, failures: seq<Option<Failure>>)
    requires o.Valid() && o.asks == []
    modifies o
    ensures o.Valid() && o.asks == Asks(calls, o.ttl)
    ensures |offered| == |calls| && Answered(calls, o.ttl, offered, failures)
  {
    offered, failures := [], [];
    for i := 0 to |calls|
      invariant o.Valid() && o.asks == Asks(calls[..i], o.ttl)
      invariant |offered| == i && Answered(calls, o.ttl, offered, failures)
    {
      assert calls[..i + 1][..i] == calls[..i];
      var f, e := o.Get(calls[i].now, calls[i].reply, calls[i].later);
      AnsweredGrows(calls, o.ttl, offered, failures, f, e);
      offered, failures := offered + [f], failures + [e];
    }
    assert calls[..|calls|] == calls;
  }

  ghost predicate Spaced(asks: seq<Ask>, ttl: int) {
    && (forall i | 0 <= i < |asks| :: asks[i].begin <= asks[i].end)
    && forall i, j | 0 <= i < j < |asks| :: asks[i].end + ttl <= asks[j].begin
  }

  lemma DueKeepsSpacing(asks: seq<Ask>, a: Ask, ttl: int)
    requires Spaced(asks, ttl) && Due(asks, a.begin, ttl) && a.begin <= a.end && 0 <= ttl
    ensures Spaced(asks + [a], ttl)
  {
    var n := |asks|;
    forall i | 0 <= i < n
      ensures asks[i].end + ttl <= a.begin
    {
      if i < n - 1 {
        assert asks[i].end + ttl <= asks[n - 1].begin <= asks[n - 1].end;
      }
    }
  }

  lemma {:induction false} AsksAreSpaced(calls: seq<Call>, ttl: int)
    requires Monotone(calls) && 0 <= ttl
    ensures Spaced(Asks(calls, ttl), ttl)
  {
    if calls != [] {
      var init, c := calls[..|calls| - 1], calls[|calls| - 1];
      AsksAreSpaced(init, ttl);
      if Due(Asks(init, ttl), c.now, ttl) {
        DueKeepsSpacing(Asks(init, ttl), Ask(c.now, c.later, c.reply), ttl);
      }
    }
  }

  /** The questions begun in `[from, to]`. */
  ghost function AskedWithin(asks: seq<Ask>, from: int, to: int): nat {
    if asks == [] then 0 else
      AskedWithin(asks[..|asks| - 1], from, to) + if from <= asks[|asks| - 1].begin <= to then 1 else 0
  }

  lemma {:induction false} EarlierBound(asks: seq<Ask>, from: int, to: int, to': int)
    requires to' <= to && forall i | 0 <= i < |asks| :: asks[i].begin <= to'
    ensures AskedWithin(asks, from, to) == AskedWithin(asks, from, to')
  {
    if asks != [] {
      EarlierBound(asks[..|asks| - 1], from, to, to');
    }
  }

  lemma Distribute(n: int, d: int)
    ensures n * d == (n - 1) * d + d
  {}

  lemma {:induction false} SpacedAsksAreFew(asks: seq<Ask>, from: int, to: int, ttl: int)
    requires Spaced(asks, ttl) && 0 < ttl
    ensures AskedWithin(asks, from, to) > 0 ==> (AskedWithin(asks, from, to) - 1) * ttl <= to - from
  {
    if asks != [] {
      var init, last := asks[..|asks| - 1], asks[|asks| - 1];
      assert Spaced(init, ttl);
      if from <= last.begin <= to {
        var to' := last.begin - ttl;
        forall i | 0 <= i < |init| ensures init[i].begin <= to' {
          assert asks[i].begin <= asks[i].end && asks[i].end + ttl <= last.begin;
        }
        EarlierBound(init, from, to, to');
        SpacedAsksAreFew(init, from, to', ttl);
        var n := AskedWithin(init, from, to');
        assert AskedWithin(asks, from, to) == n + 1;
        Distribute(n, ttl);
      } else {
        SpacedAsksAreFew(init, from, to, ttl);
      }
    }
  }

  /**
   In any run the source is not asked again before `ttl` has passed since its last reply, so `n` questions begun
   within an interval span `n - 1` times `ttl`: an interval of length L sees at most L / ttl + 1 of them.
   */
  lemma AskedOncePerTTL(calls: seq<Call>, ttl: int, from: int, length: nat, i: nat, j: nat)
    requires Monotone(calls) && 0 < ttl
    ensures var asks := Asks(calls, ttl);
            var n := AskedWithin(asks, from, from + length);
            && (i < j < |asks| ==> asks[i].end + ttl <= asks[j].begin)
            && (n > 0 ==> (n - 1) * ttl <= length)
  {
    AsksAreSpaced(calls, ttl);
    SpacedAsksAreFew(Asks(calls, ttl), from, from + length, ttl);
  }

  /** An answer, once there is one, is never lost: what is returned is the reply to the last question that succeeded. */
  lemma {:induction false} AnswerIsTheLastSuccess(asks: seq<Ask>, k: nat)
    requires k < |asks| && asks[k].reply.Ok? && forall i | k < i < |asks| :: asks[i].reply.Err?
    ensures LastAnswer(asks) == Some(asks[k].reply.value)
    ensures Verdict(asks) == if k == |asks| - 1 then None else Some(Stale(asks[|asks| - 1].reply.error))
  {
    if k < |asks| - 1 {
      AnswerIsTheLastSuccess(asks[..|asks| - 1], k);
    }
  }

  lemma {:induction false} NoAnswerYet(asks: seq<Ask>)
    requires forall i | 0 <= i < |asks| :: asks[i].reply.Err?
    ensures LastAnswer(asks) == None
    ensures Verdict(asks) == if asks == [] then None else Some(Raw(asks[|asks| - 1].reply.error))
  {
    if asks != [] {
      NoAnswerYet(asks[..|asks| - 1]);
    }
  }

  /** The calls that ask, in order, and what was asked. */
  ghost predicate AskedAt(calls: seq<Call>, ttl: int, at: seq<nat>) {
    && Increasing(at) && |at| == |Asks(calls, ttl)|
    && forall j | 0 <= j < |at| ::
         && at[j] < |calls|
         && Asks(calls, ttl)[j] == Ask(calls[at[j]].now, calls[at[j]].later, calls[at[j]].reply)
  }

  /** No call that asked before call `k` had its reply less than `ttl` earlier. */
  ghost predicate NoneRecent(calls: seq<Call>, ttl: int, at: seq<nat>, k: nat)
    requires k < |calls| && forall j | 0 <= j < |at| :: at[j] < |calls|
  {
    forall j | 0 <= j < |at| && at[j] < k :: calls[at[j]].later + ttl <= calls[k].now
  }

  lemma AskedAtGrows(calls: seq<Call>, ttl: int, before: seq<nat>, at: seq<nat>)
    requires calls != [] && AskedAt(calls[..|calls| - 1], ttl, before)
    requires var n := |calls| - 1;
             at == before + if Due(Asks(calls[..n], ttl), calls[n].now, ttl) then [n] else []
    ensures AskedAt(calls, ttl, at)
  {}

  lemma RecentSame(calls: seq<Call>, ttl: int, before: seq<nat>, at: seq<nat>, k: nat)
    requires k < |calls| - 1 && (at == before || at == before + [|calls| - 1])
    requires forall j | 0 <= j < |before| :: before[j] < |calls| - 1
    ensures NoneRecent(calls[..|calls| - 1], ttl, before, k) <==> NoneRecent(calls, ttl, at, k)
    ensures k in at <==> k in before
  {
    if NoneRecent(calls[..|calls| - 1], ttl, before, k) {
      forall j | 0 <= j < |at| && at[j] < k
        ensures calls[at[j]].later + ttl <= calls[k].now
      {
        assert at[j] == before[j];
      }
    }
    if NoneRecent(calls, ttl, at, k) {
      assert forall j | 0 <= j < |before| :: before[j] == at[j];
    }
  }

  /**
   Exactly which calls ask: the first, and any other as soon as the time to live has passed since the last reply, to the
   nanosecond; every other call is answered from memory.
   */
  lemma {:induction false} AsksExactly(calls: seq<Call>, ttl: int) returns (at: seq<nat>)
    requires Monotone(calls)
    ensures AskedAt(calls, ttl, at)
    ensures forall k: nat | k < |calls| :: k in at <==> NoneRecent(calls, ttl, at, k)
  {
    if calls == [] {
      at := [];
    } else {
      var n := |calls| - 1;
      var before := AsksExactly(calls[..n], ttl);
      at := before + if Due(Asks(calls[..n], ttl), calls[n].now, ttl) then [n] else [];
      AskedAtGrows(calls, ttl, before, at);
      LastReplyIsLatest(calls[..n], calls[n], ttl, before);
      forall k: nat | k < |calls|
        ensures k in at <==> NoneRecent(calls, ttl, at, k)
      {
        if k < n {
          RecentSame(calls, ttl, before, at, k);
        } else {
          LastCallAsks(calls, ttl, before, at);
        }
      }
    }
  }

  lemma LastCallAsks(calls: seq<Call>, ttl: int, before: seq<nat>, at: seq<nat>)
    requires calls != [] && (at == before || at == before + [|calls| - 1])
    requires forall j | 0 <= j < |before| :: before[j] < |calls| - 1
    requires var n := |calls| - 1;
             at != before <==> forall j | 0 <= j < |before| :: calls[..n][before[j]].later + ttl <= calls[n].now
    ensures |calls| - 1 in at <==> NoneRecent(calls, ttl, at, |calls| - 1)
  {
    var n := |calls| - 1;
    forall j | 0 <= j < |before|
      ensures at[j] == before[j] && calls[..n][before[j]] == calls[at[j]]
    {
    }
  }

  lemma LastReplyIsLatest(init: seq<Call>, c: Call, ttl: int, at: seq<nat>)
    requires Monotone(init) && AskedAt(init, ttl, at)
    ensures Due(Asks(init, ttl), c.now, ttl) <==> forall j | 0 <= j < |at| :: init[at[j]].later + ttl <= c.now
  {
    if at != [] {
      var last := at[|at| - 1];
      forall j | 0 <= j < |at|
        ensures init[at[j]].later <= init[last].later
      {
        if j < |at| - 1 {
          assert init[at[j]].later <= init[last].now <= init[last].later;
        }
      }
    }
  }
}
