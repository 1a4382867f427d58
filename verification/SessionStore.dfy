/**
 The in-memory session store (session/memory.go). Each method is one critical section; the instants a method
 reads from the clock are its parameters. The history of operations, in the order the lock admitted them, says
 what the two maps must hold.
 */
module SessionStore {
  import opened Common
  import opened Sessions

  datatype Op =
    | ParkFlow(flowKey: string, flow: Flow, at: int)
    | TakeFlow(flowKey: string)
    | PutSession(id: string, session: Session, at: int)
    | DeleteSession(id: string)

  /** The flow a history leaves parked under a key, with the instant it was parked. */
  ghost function Parked(log: seq<Op>, k: string): Option<(Flow, int)> {
    if log == [] then None else
      match log[|log| - 1]
      case ParkFlow(k', f, at) => if k' == k then Some((f, at)) else Parked(log[..|log| - 1], k)
      case TakeFlow(k') => if k' == k then None else Parked(log[..|log| - 1], k)
      case _ => Parked(log[..|log| - 1], k)
  }

  ghost function Stored(log: seq<Op>, id: string): Option<(Session, int)> {
    if log == [] then None else
      match log[|log| - 1]
      case PutSession(id', s, at) => if id' == id then Some((s, at)) else Stored(log[..|log| - 1], id)
      case DeleteSession(id') => if id' == id then None else Stored(log[..|log| - 1], id)
      case _ => Stored(log[..|log| - 1], id)
  }

  ghost function WithTTL<T>(v: Option<(T, int)>, ttl: int): Option<Entry<T>> {
    if v.None? then None else Some(Entry(v.value.0, v.value.1 + ttl))
  }

  class MemoryStore {
    var flows: map<string, Entry<Flow>>
    var sessions: map<string, Entry<Session>>
    const sessionTTL: int
    const flowTTL: int
    ghost var log: seq<Op>

    ghost predicate Valid()
      reads this
    {
      && (forall k :: Lookup(flows, k) == WithTTL(Parked(log, k), flowTTL))
      && (forall id :: Lookup(sessions, id) == WithTTL(Stored(log, id), sessionTTL))
    }

    constructor (sessionTTL: int, flowTTL: int)
      ensures Valid() && log == [] && this.sessionTTL == sessionTTL && this.flowTTL == flowTTL
    {
      this.sessionTTL, this.flowTTL := sessionTTL, flowTTL;
      flows, sessions, log := map[], map[], [];
    }

    method PutFlow(flowKey: string, f: Flow, now: int)
      requires Valid()
      modifies this
      ensures Valid() && log == old(log) + [ParkFlow(flowKey, f, now)]
      ensures flows == old(flows)[flowKey := Entry(f, now + flowTTL)] && sessions == old(sessions)
    {
      flows := flows[flowKey := Entry(f, now + flowTTL)];
      log := log + [ParkFlow(flowKey, f, now)];
      assert log[..|log| - 1] == old(log);
    }

    /** The part of TakeFlow that holds the lock. */
    method RemoveFlow(flowKey: string) returns (e: Option<Entry<Flow>>)
      requires Valid()
      modifies this
      ensures Valid() && log == old(log) + [Op.TakeFlow(flowKey)]
      ensures e == Lookup(old(flows), flowKey) && e == WithTTL(Parked(old(log), flowKey), flowTTL)
      ensures flows == old(flows) - {flowKey} && sessions == old(sessions)
    {
      e := Lookup(flows, flowKey);
      flows := flows - {flowKey};
      log := log + [Op.TakeFlow(flowKey)];
      assert log[..|log| - 1] == old(log);
      forall k ensures Lookup(flows, k) == WithTTL(Parked(log, k), flowTTL) {
        assert Lookup(old(flows), k) == WithTTL(Parked(old(log), k), flowTTL);
      }
    }

    /** `now` is read after the lock is dropped. */
    method TakeFlow(flowKey: string, now: int) returns (f: Option<Flow>)
      requires Valid()
      modifies this
      ensures Valid() && log == old(log) + [Op.TakeFlow(flowKey)]
      ensures f == Opened(WithTTL(Parked(old(log), flowKey), flowTTL), now)
      ensures flows == old(flows) - {flowKey} && sessions == old(sessions)
    {
      var e := RemoveFlow(flowKey);
      f := Opened(e, now);
    }

    method PutSession(id: string, s: Session, now: int)
      requires Valid()
      modifies this
      ensures Valid() && log == old(log) + [Op.PutSession(id, s, now)]
      ensures sessions == old(sessions)[id := Entry(s, now + sessionTTL)] && flows == old(flows)
    {
      sessions := sessions[id := Entry(s, now + sessionTTL)];
      log := log + [Op.PutSession(id, s, now)];
      assert log[..|log| - 1] == old(log);
    }

    /** `now` is read after the lock is dropped. */
    method GetSession(id: string, now: int) returns (s: Option<Session>)
      requires Valid()
      ensures s == Opened(WithTTL(Stored(log, id), sessionTTL), now)
    {
      var e := Lookup(sessions, id);
      s := Opened(e, now);
    }

    method DeleteSession(id: string)
      requires Valid()
      modifies this
      ensures Valid() && log == old(log) + [Op.DeleteSession(id)]
      ensures sessions == old(sessions) - {id} && flows == old(flows)
    {
      sessions := sessions - {id};
      log := log + [Op.DeleteSession(id)];
      assert log[..|log| - 1] == old(log);
    }
  }

  // What the histories mean.

  ghost predicate ConcernsSession(op: Op, id: string) {
    (op.PutSession? || op.DeleteSession?) && op.id == id
  }

  /** Position `i` is the put of `s` at instant `at`, and nothing was put or deleted under `id` since. */
  ghost predicate LastPut(log: seq<Op>, i: nat, id: string, s: Session, at: int) {
    i < |log| && log[i] == PutSession(id, s, at) && forall j | i < j < |log| :: !ConcernsSession(log[j], id)
  }

  lemma {:induction false} StoredWasPut(log: seq<Op>, id: string) returns (i: nat)
    requires Stored(log, id).Some?
    ensures LastPut(log, i, id, Stored(log, id).value.0, Stored(log, id).value.1)
  {
    var n := |log| - 1;
    if ConcernsSession(log[n], id) {
      i := n;
    } else {
      i := StoredWasPut(log[..n], id);
      assert forall j | 0 <= j < n :: log[j] == log[..n][j];
    }
  }

  lemma {:induction false} LastPutIsStored(log: seq<Op>, i: nat, id: string, s: Session, at: int)
    requires LastPut(log, i, id, s, at)
    ensures Stored(log, id) == Some((s, at))
  {
    var n := |log| - 1;
    if i < n {
      assert forall j | 0 <= j < n :: log[j] == log[..n][j];
      assert !ConcernsSession(log[n], id);
      LastPutIsStored(log[..n], i, id, s, at);
    }
  }

  /** A stored session is exactly the last one put under its id, with no deletion since. */
  lemma StoredIsLastPut(log: seq<Op>, id: string, s: Session, at: int)
    ensures Stored(log, id) == Some((s, at)) <==> exists i: nat :: LastPut(log, i, id, s, at)
  {
    if Stored(log, id) == Some((s, at)) {
      var i := StoredWasPut(log, id);
    }
    if i: nat :| LastPut(log, i, id, s, at) {
      LastPutIsStored(log, i, id, s, at);
    }
  }

  lemma {:induction false} NothingParkedSinceTake(log: seq<Op>, k: string, i: nat)
    requires i < |log| && log[i] == TakeFlow(k) && Parked(log, k).Some?
    ensures exists j :: i < j < |log| && log[j].ParkFlow? && log[j].flowKey == k
  {
    var n := |log| - 1;
    if !(log[n].ParkFlow? && log[n].flowKey == k) {
      assert log[..n][i] == log[i];
      NothingParkedSinceTake(log[..n], k, i);
      var j :| i < j < n && log[..n][j].ParkFlow? && log[..n][j].flowKey == k;
      assert log[j] == log[..n][j];
    }
  }

  /**
   Single use. Of two takes of one key that both return a flow, whenever each reads the clock, a flow was parked
   under that key in between.
   */
  lemma FlowsAreTakenOnce(log: seq<Op>, k: string, i: nat, j: nat, ttl: int, now: int, later: int)
    requires i < j < |log| && log[i] == TakeFlow(k) && log[j] == TakeFlow(k)
    requires Opened(WithTTL(Parked(log[..i], k), ttl), now).Some?
    requires Opened(WithTTL(Parked(log[..j], k), ttl), later).Some?
    ensures exists m :: i < m < j && log[m].ParkFlow? && log[m].flowKey == k
  {
    NothingParkedSinceTake(log[..j], k, i);
    var m :| i < m < j && log[..j][m].ParkFlow? && log[..j][m].flowKey == k;
    assert log[m] == log[..j][m];
  }

  /**
   What a reader gets is exactly the last value put under the id, with no deletion since, and only for as long as that
   put is no older than the time to live, to the nanosecond.
   */
  lemma ReadsLastPutExactly(log: seq<Op>, id: string, s: Session, ttl: int, now: int)
    ensures Opened(WithTTL(Stored(log, id), ttl), now) == Some(s) <==>
            exists i: nat, at :: LastPut(log, i, id, s, at) && now - at <= ttl
  {
    if Opened(WithTTL(Stored(log, id), ttl), now) == Some(s) {
      var i := StoredWasPut(log, id);
      assert LastPut(log, i, id, s, Stored(log, id).value.1);
    }
    if i: nat, at :| LastPut(log, i, id, s, at) && now - at <= ttl {
      LastPutIsStored(log, i, id, s, at);
    }
  }

  ghost predicate ConcernsFlow(op: Op, k: string) {
    (op.ParkFlow? || op.TakeFlow?) && op.flowKey == k
  }

  /** Position `i` parks `f` at instant `at`, and nothing was parked or taken under `k` since. */
  ghost predicate LastParked(log: seq<Op>, i: nat, k: string, f: Flow, at: int) {
    i < |log| && log[i] == ParkFlow(k, f, at) && forall j | i < j < |log| :: !ConcernsFlow(log[j], k)
  }

  lemma {:induction false} ParkedWasPut(log: seq<Op>, k: string) returns (i: nat)
    requires Parked(log, k).Some?
    ensures LastParked(log, i, k, Parked(log, k).value.0, Parked(log, k).value.1)
  {
    var n := |log| - 1;
    if ConcernsFlow(log[n], k) {
      i := n;
    } else {
      i := ParkedWasPut(log[..n], k);
      assert forall j | 0 <= j < n :: log[j] == log[..n][j];
    }
  }

  lemma {:induction false} LastParkedIsParked(log: seq<Op>, i: nat, k: string, f: Flow, at: int)
    requires LastParked(log, i, k, f, at)
    ensures Parked(log, k) == Some((f, at))
  {
    var n := |log| - 1;
    if i < n {
      assert forall j | 0 <= j < n :: log[j] == log[..n][j];
      assert !ConcernsFlow(log[n], k);
      LastParkedIsParked(log[..n], i, k, f, at);
    }
  }

  /**
   What a take gets is exactly the last flow parked under the key, not taken since and no older than the time to live.
   */
  lemma TakesLastParkedExactly(log: seq<Op>, k: string, f: Flow, ttl: int, now: int)
    ensures Opened(WithTTL(Parked(log, k), ttl), now) == Some(f) <==>
            exists i: nat, at :: LastParked(log, i, k, f, at) && now - at <= ttl
  {
    if Opened(WithTTL(Parked(log, k), ttl), now) == Some(f) {
      var i := ParkedWasPut(log, k);
      assert LastParked(log, i, k, f, Parked(log, k).value.1);
    }
    if i: nat, at :| LastParked(log, i, k, f, at) && now - at <= ttl {
      LastParkedIsParked(log, i, k, f, at);
    }
  }
}
