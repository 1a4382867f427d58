/**
 The render-recent answer cache (anscache.go), its keys and its use by the two validation requests
 (routes/anscache.go, routes/documents.go, routes/signing.go).
 */
module AnswerCache {
  import opened Common

  /** One store of a serialized answer. */
  datatype Store = Store(key: string, val: string, at: int)

  /** The last store under a key. */
  ghost function LastStore(log: seq<Store>, key: string): Option<Store> {
    if log == [] then None
    else if log[|log| - 1].key == key then Some(log[|log| - 1])
    else LastStore(log[..|log| - 1], key)
  }

  /** What a plain log of stores answers: the last value, while it is no older than `ttl`. */
  ghost function Recall(log: seq<Store>, key: string, now: int, ttl: int): Option<string> {
    var last := LastStore(log, key);
    if last.Some? && now - last.value.at <= ttl then Some(last.value.val) else None
  }

  // The two critical sections, as changes of the map.

  ghost function Looked(m: map<string, Entry<string>>, key: string, now: int): map<string, Entry<string>> {
    if key in m && Expired(m[key], now) then m - {key} else m
  }

  ghost function Swept(m: map<string, Entry<string>>, now: int): map<string, Entry<string>> {
    map k | k in m && !Expired(m[k], now) :: m[k]
  }

  class MemoryAnswerCache {
    var m: map<string, Entry<string>>
    const ttl: int
    ghost var log: seq<Store>
    ghost var clock: int

    /** The map holds only last stores, and every one that can still be asked for. */
    ghost predicate Valid()
      reads this
    {
      && 0 < ttl
      && (forall k | k in m ::
            && LastStore(log, k).Some?
            && m[k] == Entry(LastStore(log, k).value.val, LastStore(log, k).value.at + ttl))
      && (forall k | Recall(log, k, clock, ttl).Some? :: k in m)
    }

    constructor (ttl: int)
      requires 0 < ttl
      ensures Valid() && log == [] && m == map[] && this.ttl == ttl
    {
      this.ttl, m, log := ttl, map[], [];
    }

    method Get(key: string, now: int) returns (val: Option<string>)
      requires Valid() && clock <= now
      modifies this
      ensures Valid() && log == old(log) && clock == now
      ensures m == Looked(old(m), key, now)
      ensures val == Recall(log, key, now, ttl) == Opened(Lookup(old(m), key), now)
    {
      clock := now;
      if key !in m {
        return None;
      }
      var e := m[key];
      if Expired(e, now) {
        m := m - {key};
        return None;
      }
      return Some(e.data);
    }

    /** The loop of `Set`, under its lock. */
    method Sweep(now: int)
      modifies this`m
      ensures m == Swept(old(m), now)
    {
      var was, rest := m, m.Keys;
      while rest != {}
        invariant rest <= was.Keys && rest <= m.Keys
        invariant m == map k | k in was && (k in rest || !Expired(was[k], now)) :: was[k]
        decreases |rest|
      {
        var k :| k in rest;
        if Expired(was[k], now) {
          m := m - {k};
        }
        rest := rest - {k};
      }
    }

    method Set(key: string, val: string, now: int)
      requires Valid() && clock <= now
      modifies this
      ensures Valid() && log == old(log) + [Store(key, val, now)] && clock == now
      ensures m == Swept(old(m), now)[key := Entry(val, now + ttl)]
      ensures forall k | k in m :: !Expired(m[k], now)
    {
      Sweep(now);
      m := m[key := Entry(val, now + ttl)];
      log, clock := log + [Store(key, val, now)], now;
      assert log[..|log| - 1] == old(log);
      forall k | Recall(log, k, clock, ttl).Some?
        ensures k in m
      {
        if k != key {
          assert Recall(old(log), k, old(clock), ttl).Some?;
        }
      }
    }
  }

  ghost predicate IsLastStore(log: seq<Store>, i: nat, key: string) {
    i < |log| && log[i].key == key && forall j | i < j < |log| :: log[j].key != key
  }

  lemma {:induction false} LaterStoreWins(log: seq<Store>, key: string, i: nat)
    requires IsLastStore(log, i, key)
    ensures LastStore(log, key) == Some(log[i])
  {
    if i < |log| - 1 {
      LaterStoreWins(log[..|log| - 1], key, i);
    }
  }

  lemma {:induction false} LastStoreFound(log: seq<Store>, key: string) returns (i: nat)
    requires LastStore(log, key).Some?
    ensures IsLastStore(log, i, key)
  {
    var n := |log| - 1;
    if log[n].key == key {
      i := n;
    } else {
      i := LastStoreFound(log[..n], key);
      assert log[..n][i] == log[i];
      forall j | i < j < |log| ensures log[j].key != key { if j < n { assert log[..n][j] == log[j]; } }
    }
  }

  lemma {:induction false} SomeStoreIsLast(log: seq<Store>, key: string, j: nat)
    requires j < |log| && log[j].key == key
    ensures LastStore(log, key).Some?
  {
    if j < |log| - 1 {
      SomeStoreIsLast(log[..|log| - 1], key, j);
    }
  }

  /**
   The last store is exactly the one after which nothing was stored under its key; there is none exactly if nothing
   ever was.
   */
  lemma LastStoreExactly(log: seq<Store>, key: string, last: Store)
    ensures LastStore(log, key) == Some(last) <==> exists i: nat :: IsLastStore(log, i, key) && log[i] == last
    ensures LastStore(log, key).None? <==> forall j | 0 <= j < |log| :: log[j].key != key
  {
    if LastStore(log, key).Some? {
      var i := LastStoreFound(log, key);
      LaterStoreWins(log, key, i);
    }
    if i: nat :| IsLastStore(log, i, key) && log[i] == last {
      LaterStoreWins(log, key, i);
    }
    if j :| 0 <= j < |log| && log[j].key == key {
      SomeStoreIsLast(log, key, j);
    }
  }

  // Keys.

  const KINDS: set<string> := {"doc", "sig"}

  function AnswerKey(sub: string, kind: string, id: string): string {
    "va:" + sub + ":" + kind + ":" + id
  }

  predicate NoColon(s: string) {
    forall i | 0 <= i < |s| :: s[i] != ':'
  }

  /** The longer subject continues the shorter one as a kind and an id would. */
  ghost predicate Shadows(a: string, b: string) {
    exists kind :: kind in KINDS && a + ":" + kind + ":" <= b + ":"
  }

  /** No user's subject continues another's in that way. */
  ghost predicate Separate(users: set<string>) {
    forall a, b | a in users && b in users :: !Shadows(a, b)
  }

  lemma KindLength(kind: string)
    requires kind in KINDS
    ensures |kind| == 3 && NoColon(kind)
  {}

  /** One subject's keys name one kind and one id each. */
  lemma SubjectKeysDiffer(sub: string, kind: string, id: string, kind': string, id': string)
    requires kind in KINDS && kind' in KINDS && AnswerKey(sub, kind, id) == AnswerKey(sub, kind', id')
    ensures kind == kind' && id == id'
  {
    KindLength(kind);
    KindLength(kind');
    var k := AnswerKey(sub, kind, id);
    var n := 4 + |sub|;
    assert k[n..n + 3] == kind && k[n..n + 3] == kind' && k[n + 4..] == id && k[n + 4..] == id';
  }

  lemma CollisionShadows(a: string, kind: string, id: string, b: string, kind': string, id': string)
    requires kind in KINDS && kind' in KINDS && |a| <= |b| && a != b
    requires AnswerKey(a, kind, id) == AnswerKey(b, kind', id')
    ensures Shadows(a, b)
  {
    KindLength(kind);
    KindLength(kind');
    var k := AnswerKey(a, kind, id);
    assert k[3..3 + |a|] == a && k[3..3 + |b|] == b && k[3 + |b|] == ':';
    assert forall i | 0 <= i < 3 :: k[4 + |a| + i] == kind[i];
    assert k[3 + |b|] != k[4 + |a|] && k[3 + |b|] != k[5 + |a|] && k[3 + |b|] != k[6 + |a|];
    assert k[3..4 + |b|] == b + ":" && k[3..8 + |a|] == a + ":" + kind + ":";
    assert (b + ":")[..|a| + 5] == k[3..8 + |a|];
  }

  lemma NoColonNoShadow(a: string, b: string)
    requires NoColon(b)
    ensures !Shadows(a, b)
  {
    forall kind | kind in KINDS
      ensures !(a + ":" + kind + ":" <= b + ":")
    {
      KindLength(kind);
      var head := a + ":" + kind + ":";
      assert head[|a|] == ':';
      if |head| <= |b + ":"| {
        assert (b + ":")[|a|] == b[|a|];
      }
    }
  }

  /** Exactly when two subjects can share a cached answer. */
  lemma SubjectsCollideExactly(a: string, b: string)
    requires |a| <= |b| && a != b
    ensures (exists kind, id, kind', id' ::
               kind in KINDS && kind' in KINDS && AnswerKey(a, kind, id) == AnswerKey(b, kind', id')) <==>
            Shadows(a, b)
  {
    if kind, id, kind', id' :| kind in KINDS && kind' in KINDS && AnswerKey(a, kind, id) == AnswerKey(b, kind', id') {
      CollisionShadows(a, kind, id, b, kind', id');
    }
    if Shadows(a, b) {
      var kind :| kind in KINDS && a + ":" + kind + ":" <= b + ":";
      var id := ShadowCollides(a, b, kind);
    }
  }

  lemma ShadowCollides(a: string, b: string, kind: string) returns (id: string)
    requires kind in KINDS && a + ":" + kind + ":" <= b + ":"
    ensures "doc" in KINDS && id != "" && AnswerKey(a, kind, id) == AnswerKey(b, "doc", "x")
  {
    var head, tail := a + ":" + kind + ":", (b + ":")[|a + ":" + kind + ":"|..];
    id := tail + "doc:x";
    assert b + ":" == head + tail;
    assert AnswerKey(a, kind, id) == "va:" + head + id;
    assert AnswerKey(b, "doc", "x") == "va:" + (b + ":") + "doc:x";
  }

  /** Among separate users a key names its subject, kind and id. */
  lemma AnswerKeyIsInjective(users: set<string>, a: string, kind: string, id: string, b: string, kind': string,
                             id': string)
    requires Separate(users) && a in users && b in users && kind in KINDS && kind' in KINDS
    requires AnswerKey(a, kind, id) == AnswerKey(b, kind', id')
    ensures a == b && kind == kind' && id == id'
  {
    if a == b {
      SubjectKeysDiffer(a, kind, id, kind', id');
    } else if |a| <= |b| {
      SubjectsCollideExactly(a, b);
    } else {
      SubjectsCollideExactly(b, a);
    }
  }

  /** Users whose subjects hold no colon are separate. */
  lemma ColonFreeUsersAreSeparate(users: set<string>)
    requires forall a | a in users :: NoColon(a)
    ensures Separate(users)
  {
    forall a, b | a in users && b in users
      ensures !Shadows(a, b)
    {
      NoColonNoShadow(a, b);
    }
  }

  /** The condition matters: a subject may hold a colon, and then two users can share a key. */
  lemma ColonSubjectsCollide()
    ensures AnswerKey("a", "doc", "sig:x") == AnswerKey("a:doc", "sig", "x")
  {}

  // The requests that use the cache, interleaved.

  datatype Target = Target(sub: string, kind: string, id: string)

  datatype Task =
    | Asking(target: Target)                // upstream runs its validation round
    | Keeping(target: Target, val: string)  // the answer is about to be stored

  datatype Event =
    | Validated(target: Target, val: string, at: int)
    | Kept(target: Target, val: string, at: int)
    | Served(target: Target, val: string, at: int)  // from the cache

  datatype State = State(now: int, m: map<string, Entry<string>>, tasks: map<nat, Task>, log: seq<Event>)

  datatype Step =
    | Tick(elapsed: nat)
    | Ask(id: nat, target: Target, force: bool)
    | Reply(id: nat, answer: Option<string>)
    | Keep(id: nat)

  /** A target a route delivers, for one of these users: the path parameter that names it is never empty. */
  ghost predicate Proper(users: set<string>, t: Target) {
    t.sub in users && t.kind in KINDS && t.id != ""
  }

  ghost predicate Enabled(users: set<string>, s: State, step: Step) {
    match step
    case Tick(_) => true
    case Ask(id, t, _) => id !in s.tasks && Proper(users, t)
    case Reply(id, _) => id in s.tasks && s.tasks[id].Asking?
    case Keep(id) => id in s.tasks && s.tasks[id].Keeping?
  }

  function KeyOf(t: Target): string {
    AnswerKey(t.sub, t.kind, t.id)
  }

  ghost function After(users: set<string>, s: State, step: Step, ttl: int): State
    requires Enabled(users, s, step)
  {
    match step
    case Tick(elapsed) => s.(now := s.now + elapsed)
    case Ask(id, t, force) =>
      if force then s.(tasks := s.tasks[id := Asking(t)])
      else
        var hit := Opened(Lookup(s.m, KeyOf(t)), s.now);
        var looked := s.(m := Looked(s.m, KeyOf(t), s.now));
        if hit.Some? then looked.(log := s.log + [Served(t, hit.value, s.now)])
        else looked.(tasks := s.tasks[id := Asking(t)])
    case Reply(id, answer) =>
      var t := s.tasks[id].target;
      if answer.None? then s.(tasks := s.tasks - {id})
      else s.(tasks := s.tasks[id := Keeping(t, answer.value)], log := s.log + [Validated(t, answer.value, s.now)])
    case Keep(id) =>
      var k := s.tasks[id];
      s.(m := Swept(s.m, s.now)[KeyOf(k.target) := Entry(k.val, s.now + ttl)],
         tasks := s.tasks - {id},
         log := s.log + [Kept(k.target, k.val, s.now)])
  }

  ghost predicate Run(users: set<string>, steps: seq<Step>, states: seq<State>, ttl: int) {
    && |states| == |steps| + 1 && states[0] == State(states[0].now, map[], map[], [])
    && forall i | 0 <= i < |steps| ::
         Enabled(users, states[i], steps[i]) && states[i + 1] == After(users, states[i], steps[i], ttl)
  }

  /** Upstream gave this answer for this target, to this user, within this history. */
  ghost predicate Given(log: seq<Event>, t: Target, val: string) {
    exists r: nat :: r < |log| && log[r].Validated? && log[r].target == t && log[r].val == val
  }

  /** The last answer kept under a key. */
  ghost predicate LastKept(log: seq<Event>, q: nat, key: string) {
    && q < |log| && log[q].Kept? && KeyOf(log[q].target) == key
    && forall j | q < j < |log| && log[j].Kept? :: KeyOf(log[j].target) != key
  }

  /** What the history before position `p` has to say for the event there. */
  ghost predicate EventOk(users: set<string>, log: seq<Event>, p: nat, ttl: int)
    requires p < |log|
  {
    var e, before := log[p], log[..p];
    && Proper(users, e.target)
    && (e.Kept? ==> Given(before, e.target, e.val))
    && (e.Served? ==> exists q: nat ::
          && LastKept(before, q, KeyOf(e.target)) && before[q] == Kept(e.target, e.val, before[q].at)
          && before[q].at <= e.at <= before[q].at + ttl)
  }

  ghost predicate EntryOk(s: State, k: string, ttl: int)
    requires k in s.m
  {
    exists q: nat :: LastKept(s.log, q, k) && s.m[k] == Entry(s.log[q].val, s.log[q].at + ttl)
  }

  ghost predicate Inv(users: set<string>, s: State, ttl: int) {
    && (forall k | k in s.m :: EntryOk(s, k, ttl))
    && (forall id | id in s.tasks :: Proper(users, s.tasks[id].target))
    && (forall id | id in s.tasks && s.tasks[id].Keeping? :: Given(s.log, s.tasks[id].target, s.tasks[id].val))
    && (forall p: nat | p < |s.log| :: EventOk(users, s.log, p, ttl) && s.log[p].at <= s.now)
  }

  lemma GivenLasts(log: seq<Event>, more: seq<Event>, t: Target, val: string)
    requires log <= more && Given(log, t, val)
    ensures Given(more, t, val)
  {
    var r: nat :| r < |log| && log[r].Validated? && log[r].target == t && log[r].val == val;
    assert more[r] == log[r];
  }

  lemma EventsLast(users: set<string>, log: seq<Event>, e: Event, ttl: int)
    requires forall p: nat | p < |log| :: EventOk(users, log, p, ttl)
    ensures forall p: nat | p < |log| :: EventOk(users, log + [e], p, ttl)
  {
    forall p: nat | p < |log|
      ensures EventOk(users, log + [e], p, ttl)
    {
      assert (log + [e])[..p] == log[..p] && EventOk(users, log, p, ttl);
    }
  }

  lemma EntryLasts(s: State, t: State, k: string, ttl: int)
    requires k in s.m && k in t.m && t.m[k] == s.m[k] && EntryOk(s, k, ttl)
    requires t.log == s.log || (|t.log| > 0 && t.log == s.log + [t.log[|t.log| - 1]])
    requires |t.log| > |s.log| && t.log[|s.log|].Kept? ==> KeyOf(t.log[|s.log|].target) != k
    ensures EntryOk(t, k, ttl)
  {
    var q: nat :| LastKept(s.log, q, k) && s.m[k] == Entry(s.log[q].val, s.log[q].at + ttl);
    assert LastKept(t.log, q, k);
  }

  /**
   Among separate users, what the cache holds under a target's key is the last answer kept under it, and is the
   target's own.
   */
  lemma ServedIsOwn(users: set<string>, s: State, t: Target, ttl: int) returns (q: nat)
    requires Separate(users) && Inv(users, s, ttl) && Proper(users, t) && KeyOf(t) in s.m
    ensures LastKept(s.log, q, KeyOf(t)) && s.log[q].target == t
            && s.m[KeyOf(t)] == Entry(s.log[q].val, s.log[q].at + ttl)
    ensures Given(s.log[..q], t, s.log[q].val) && s.log[q].at <= s.now
  {
    assert EntryOk(s, KeyOf(t), ttl);
    q :| LastKept(s.log, q, KeyOf(t)) && s.m[KeyOf(t)] == Entry(s.log[q].val, s.log[q].at + ttl);
    assert EventOk(users, s.log, q, ttl);
    var owner := s.log[q].target;
    AnswerKeyIsInjective(users, owner.sub, owner.kind, owner.id, t.sub, t.kind, t.id);
  }

  /** A step that records nothing. */
  lemma QuietKeepsInv(users: set<string>, s: State, t: State, id: nat, ttl: int)
    requires Inv(users, s, ttl) && t.log == s.log && s.now <= t.now
    requires forall k | k in t.m :: k in s.m && t.m[k] == s.m[k]
    requires forall i | i in t.tasks && i != id :: i in s.tasks && t.tasks[i] == s.tasks[i]
    requires id in t.tasks ==> Proper(users, t.tasks[id].target)
    requires id in t.tasks && t.tasks[id].Keeping? ==> id in s.tasks && t.tasks[id] == s.tasks[id]
    ensures Inv(users, t, ttl)
  {
    forall k | k in t.m ensures EntryOk(t, k, ttl) { EntryLasts(s, t, k, ttl); }
  }

  /** A step that records `e`. */
  lemma EventKeepsInv(users: set<string>, s: State, t: State, id: nat, e: Event, ttl: int)
    requires Inv(users, s, ttl) && t.log == s.log + [e] && s.now == t.now == e.at && EventOk(users, t.log, |s.log|, ttl)
    requires forall k | k in t.m ::
               (k in s.m && t.m[k] == s.m[k] && (e.Kept? ==> KeyOf(e.target) != k)) || EntryOk(t, k, ttl)
    requires forall i | i in t.tasks && i != id :: i in s.tasks && t.tasks[i] == s.tasks[i]
    requires id in t.tasks ==> Proper(users, t.tasks[id].target)
    requires id in t.tasks && t.tasks[id].Keeping? ==> Given(t.log, t.tasks[id].target, t.tasks[id].val)
    ensures Inv(users, t, ttl)
  {
    EventsLast(users, s.log, e, ttl);
    forall k | k in t.m ensures EntryOk(t, k, ttl) {
      if k in s.m && t.m[k] == s.m[k] && (e.Kept? ==> KeyOf(e.target) != k) { EntryLasts(s, t, k, ttl); }
    }
    forall i | i in t.tasks && t.tasks[i].Keeping? ensures Given(t.log, t.tasks[i].target, t.tasks[i].val) {
      if i != id { GivenLasts(s.log, t.log, t.tasks[i].target, t.tasks[i].val); }
    }
    forall p: nat | p < |t.log| ensures EventOk(users, t.log, p, ttl) && t.log[p].at <= t.now {
      if p < |s.log| { assert t.log[p] == s.log[p]; }
    }
  }

  lemma AskKeepsInv(users: set<string>, s: State, step: Step, ttl: int)
    requires Separate(users) && Inv(users, s, ttl) && step.Ask? && Enabled(users, s, step)
    ensures Inv(users, After(users, s, step, ttl), ttl)
  {
    var t, target := After(users, s, step, ttl), step.target;
    var hit := Opened(Lookup(s.m, KeyOf(target)), s.now);
    if !step.force && hit.Some? {
      var q := ServedIsOwn(users, s, target, ttl);
      var e := Served(target, hit.value, s.now);
      assert t.log[..|s.log|] == s.log && s.log[q] == Kept(target, e.val, s.log[q].at);
      EventKeepsInv(users, s, t, step.id, e, ttl);
    } else {
      QuietKeepsInv(users, s, t, step.id, ttl);
    }
  }

  lemma ReplyKeepsInv(users: set<string>, s: State, step: Step, ttl: int)
    requires Inv(users, s, ttl) && step.Reply? && Enabled(users, s, step)
    ensures Inv(users, After(users, s, step, ttl), ttl)
  {
    var t, target := After(users, s, step, ttl), s.tasks[step.id].target;
    if step.answer.Some? {
      assert t.log[|s.log|] == Validated(target, step.answer.value, s.now);
      EventKeepsInv(users, s, t, step.id, Validated(target, step.answer.value, s.now), ttl);
    } else {
      QuietKeepsInv(users, s, t, step.id, ttl);
    }
  }

  lemma KeepKeepsInv(users: set<string>, s: State, step: Step, ttl: int)
    requires Inv(users, s, ttl) && step.Keep? && Enabled(users, s, step)
    ensures Inv(users, After(users, s, step, ttl), ttl)
  {
    var t, k := After(users, s, step, ttl), s.tasks[step.id];
    var e := Kept(k.target, k.val, s.now);
    assert t.log[..|s.log|] == s.log && t.log[|s.log|] == e;
    assert LastKept(t.log, |s.log|, KeyOf(k.target));
    assert EntryOk(t, KeyOf(k.target), ttl);
    EventKeepsInv(users, s, t, step.id, e, ttl);
  }

  lemma StepKeepsInv(users: set<string>, s: State, step: Step, ttl: int)
    requires Separate(users) && Inv(users, s, ttl) && Enabled(users, s, step)
    ensures Inv(users, After(users, s, step, ttl), ttl)
  {
    match step
    case Tick(_) => QuietKeepsInv(users, s, After(users, s, step, ttl), 0, ttl);
    case Ask(_, _, _) => AskKeepsInv(users, s, step, ttl);
    case Reply(_, _) => ReplyKeepsInv(users, s, step, ttl);
    case Keep(_) => KeepKeepsInv(users, s, step, ttl);
  }

  lemma {:induction false} RunKeepsInv(users: set<string>, steps: seq<Step>, states: seq<State>, ttl: int, n: nat)
    requires Separate(users) && Run(users, steps, states, ttl) && n < |states|
    ensures Inv(users, states[n], ttl)
  {
    if n > 0 {
      RunKeepsInv(users, steps, states, ttl, n - 1);
      StepKeepsInv(users, states[n - 1], steps[n - 1], ttl);
    }
  }

  /**
   Every reply served from the cache is the last answer kept under its key before the reply, no longer than `ttl`
   before; and before that, upstream gave this answer to the same user for the same kind and target.
   */
  lemma ServedAnswersAreOwnAndRecent(users: set<string>, steps: seq<Step>, states: seq<State>, ttl: int, n: nat, p: nat)
      returns (given: nat, kept: nat)
    requires Separate(users) && Run(users, steps, states, ttl) && n < |states| && p < |states[n].log|
    requires states[n].log[p].Served?
    ensures given < kept < p
    ensures var log := states[n].log;
            var e := log[p];
            && log[given].Validated? && log[given].target == e.target && log[given].val == e.val
            && log[kept] == Kept(e.target, e.val, log[kept].at) && log[kept].at <= e.at <= log[kept].at + ttl
            && forall j | kept < j < p && log[j].Kept? :: KeyOf(log[j].target) != KeyOf(e.target)
  {
    RunKeepsInv(users, steps, states, ttl, n);
    var log := states[n].log;
    var e, before := log[p], log[..p];
    assert EventOk(users, log, p, ttl);
    kept :| && LastKept(before, kept, KeyOf(e.target)) && before[kept] == Kept(e.target, e.val, before[kept].at)
            && before[kept].at <= e.at <= before[kept].at + ttl;
    assert EventOk(users, log, kept, ttl);
    given :| given < kept && log[..kept][given].Validated? && log[given].target == e.target && log[given].val == e.val;
    assert forall j | kept < j < p && log[j].Kept? :: before[j] == log[j];
  }

  /** The map holds every answer that may still be served. */
  ghost predicate Complete(s: State, ttl: int) {
    forall q: nat, k | LastKept(s.log, q, k) && s.now <= s.log[q].at + ttl :: k in s.m
  }

  lemma SameLastKept(log: seq<Event>, p: nat, q: nat, key: string)
    requires LastKept(log, p, key) && LastKept(log, q, key)
    ensures p == q
  {}

  lemma LastKeptBefore(log: seq<Event>, e: Event, q: nat, key: string)
    requires LastKept(log + [e], q, key)
    ensures if q < |log| then LastKept(log, q, key) && (log + [e])[q] == log[q] && (e.Kept? ==> KeyOf(e.target) != key)
            else e.Kept? && KeyOf(e.target) == key
  {
    if q < |log| {
      assert (log + [e])[|log|] == e;
      assert forall j | q < j < |log| :: (log + [e])[j] == log[j];
    }
  }

  /** An entry that may still be served has not expired. */
  lemma LiveEntry(users: set<string>, s: State, q: nat, k: string, ttl: int)
    requires Inv(users, s, ttl) && Complete(s, ttl) && LastKept(s.log, q, k) && s.now <= s.log[q].at + ttl
    ensures k in s.m && s.m[k] == Entry(s.log[q].val, s.log[q].at + ttl) && !Expired(s.m[k], s.now)
  {
    assert EntryOk(s, k, ttl);
    var p: nat :| LastKept(s.log, p, k) && s.m[k] == Entry(s.log[p].val, s.log[p].at + ttl);
    SameLastKept(s.log, p, q, k);
  }

  /** A step keeps the map complete when it removes dead entries alone, and keeps what it records as kept. */
  lemma LiveEntriesStay(users: set<string>, s: State, t: State, ttl: int)
    requires Inv(users, s, ttl) && Complete(s, ttl) && s.now <= t.now
    requires t.log == s.log || (|t.log| > 0 && t.log == s.log + [t.log[|t.log| - 1]])
    requires forall k | k in s.m && !Expired(s.m[k], s.now) :: k in t.m
    requires |t.log| > |s.log| && t.log[|s.log|].Kept? ==> KeyOf(t.log[|s.log|].target) in t.m
    ensures Complete(t, ttl)
  {
    forall q: nat, k | LastKept(t.log, q, k) && t.now <= t.log[q].at + ttl
      ensures k in t.m
    {
      if t.log != s.log {
        LastKeptBefore(s.log, t.log[|s.log|], q, k);
      }
      if q < |s.log| {
        LiveEntry(users, s, q, k, ttl);
      }
    }
  }

  lemma StepKeepsComplete(users: set<string>, s: State, step: Step, ttl: int)
    requires Inv(users, s, ttl) && Complete(s, ttl) && Enabled(users, s, step)
    ensures Complete(After(users, s, step, ttl), ttl)
  {
    LiveEntriesStay(users, s, After(users, s, step, ttl), ttl);
  }

  lemma {:induction false} RunKeepsComplete(users: set<string>, steps: seq<Step>, states: seq<State>, ttl: int, n: nat)
    requires Separate(users) && Run(users, steps, states, ttl) && n < |states|
    ensures Complete(states[n], ttl)
  {
    if n > 0 {
      RunKeepsComplete(users, steps, states, ttl, n - 1);
      RunKeepsInv(users, steps, states, ttl, n - 1);
      StepKeepsComplete(users, states[n - 1], steps[n - 1], ttl);
    }
  }

  /**
   Exactly which requests the cache answers. One that forces a fresh round never is, and leaves the cache as it was; any
   other is, with the last answer kept under its key, exactly while that is no older than `ttl`. All others go upstream.
   */
  lemma AnsweredExactly(users: set<string>, steps: seq<Step>, states: seq<State>, ttl: int, n: nat)
    requires Separate(users) && Run(users, steps, states, ttl) && n < |steps| && steps[n].Ask?
    ensures var s, t, step := states[n], states[n + 1], steps[n];
            && (step.force ==> t.m == s.m)
            && (step.force || (forall q: nat | LastKept(s.log, q, KeyOf(step.target)) :: s.log[q].at + ttl < s.now) ==>
                  t.log == s.log && t.tasks == s.tasks[step.id := Asking(step.target)])
            && (!step.force ==>
                  forall q: nat | LastKept(s.log, q, KeyOf(step.target)) && s.now <= s.log[q].at + ttl ::
                    t.log == s.log + [Served(step.target, s.log[q].val, s.now)] && t.tasks == s.tasks)
  {
    var s, step := states[n], steps[n];
    RunKeepsInv(users, steps, states, ttl, n);
    RunKeepsComplete(users, steps, states, ttl, n);
    if KeyOf(step.target) in s.m {
      assert EntryOk(s, KeyOf(step.target), ttl);
    }
    forall q: nat | LastKept(s.log, q, KeyOf(step.target)) && s.now <= s.log[q].at + ttl
      ensures Opened(Lookup(s.m, KeyOf(step.target)), s.now) == Some(s.log[q].val)
    {
      LiveEntry(users, s, q, KeyOf(step.target), ttl);
    }
  }

  /** An answer upstream gives, forced or not, replaces what is held for its target. */
  lemma AnswerReplaces(users: set<string>, s: State, id: nat, answer: string, ttl: int)
    requires id in s.tasks && s.tasks[id].Asking?
    ensures var target, replied := s.tasks[id].target, After(users, s, Reply(id, Some(answer)), ttl);
            && Enabled(users, replied, Keep(id))
            && var kept := After(users, replied, Keep(id), ttl);
            && Lookup(kept.m, KeyOf(target)) == Some(Entry(answer, s.now + ttl)) && id !in kept.tasks
            && LastKept(kept.log, |kept.log| - 1, KeyOf(target)) && kept.log[|kept.log| - 1].val == answer
  {}

  /** Every answer served was given to the user it was served to, before it was served. */
  ghost predicate OwnAnswers(log: seq<Event>) {
    forall p: nat | p < |log| && log[p].Served? :: Given(log[..p], log[p].target, log[p].val)
  }

  /** Two targets under one key: what upstream answered for one is served for the other. */
  lemma SharedKeyIsServed(users: set<string>, mine: Target, theirs: Target, ttl: int)
      returns (steps: seq<Step>, states: seq<State>)
    requires 0 < ttl && Proper(users, mine) && Proper(users, theirs) && mine != theirs && KeyOf(mine) == KeyOf(theirs)
    ensures Run(users, steps, states, ttl) && !OwnAnswers(states[|steps|].log)
  {
    var start := State(0, map[], map[], []);
    var asked := start.(tasks := map[0 := Asking(mine)]);
    var validated, stored := Validated(mine, "answer", 0), Kept(mine, "answer", 0);
    var replied := start.(tasks := map[0 := Keeping(mine, "answer")], log := [validated]);
    var kept := State(0, map[KeyOf(mine) := Entry("answer", ttl)], map[], [validated, stored]);
    var served := kept.(log := [validated, stored, Served(theirs, "answer", 0)]);
    steps := [Ask(0, mine, false), Reply(0, Some("answer")), Keep(0), Ask(0, theirs, false)];
    states := [start, asked, replied, kept, served];
    assert After(users, start, steps[0], ttl) == asked && After(users, asked, steps[1], ttl) == replied;
    assert After(users, replied, steps[2], ttl) == kept && After(users, kept, steps[3], ttl) == served;
    assert served.log[2].Served? && !Given(served.log[..2], theirs, "answer");
  }

  /**
   Whether users can be served each other's answers depends on their subjects alone: in every run all answers served are
   own exactly if the users are separate.
   */
  lemma AnswersAreOwnExactly(users: set<string>, ttl: int)
    requires 0 < ttl
    ensures Separate(users) <==>
            forall steps: seq<Step>, states: seq<State> | Run(users, steps, states, ttl) ::
              OwnAnswers(states[|steps|].log)
  {
    if Separate(users) {
      forall steps: seq<Step>, states: seq<State> | Run(users, steps, states, ttl)
        ensures OwnAnswers(states[|steps|].log)
      {
        var log := states[|steps|].log;
        forall p: nat | p < |log| && log[p].Served?
          ensures Given(log[..p], log[p].target, log[p].val)
        {
          var given, kept := ServedAnswersAreOwnAndRecent(users, steps, states, ttl, |steps|, p);
          assert log[..p][given] == log[given];
        }
      }
    } else {
      var a, b :| a in users && b in users && Shadows(a, b);
      var kind :| kind in KINDS && a + ":" + kind + ":" <= b + ":";
      var id := ShadowCollides(a, b, kind);
      assert |a| < |b|;
      var steps, states := SharedKeyIsServed(users, Target(a, kind, id), Target(b, "doc", "x"), ttl);
    }
  }
}
