/** The per-address cap on running verifications (routes/verify.go), as one gate and as requests that share it. */
module InflightGate {
  import opened Common

  function Count(perIP: map<string, int>, key: string): int {
    if key in perIP then perIP[key] else 0
  }

  function Acquired(perIP: map<string, int>, key: string): map<string, int> {
    perIP[key := Count(perIP, key) + 1]
  }

  function Released(perIP: map<string, int>, key: string): map<string, int> {
    if Count(perIP, key) <= 1 then perIP - {key} else perIP[key := Count(perIP, key) - 1]
  }

  class InflightGate {
    const max: int
    var perIP: map<string, int>

    constructor (configured: int)
      ensures perIP == map[] && 1 <= max && (1 <= configured ==> max == configured) && (configured < 1 ==> max == 1)
    {
      max, perIP := if configured < 1 then 1 else configured, map[];
    }

    method Acquire(key: string) returns (ok: bool)
      modifies this
      ensures ok <==> Count(old(perIP), key) < max
      ensures perIP == if ok then Acquired(old(perIP), key) else old(perIP)
    {
      var n := if key in perIP then perIP[key] else 0;
      if n >= max {
        return false;
      }
      perIP := perIP[key := n + 1];
      return true;
    }

    method Release(key: string)
      modifies this
      ensures perIP == Released(old(perIP), key)
    {
      var n := if key in perIP then perIP[key] else 0;
      if n <= 1 {
        perIP := perIP - {key};
      } else {
        perIP := perIP[key := n - 1];
      }
    }
  }

  // Requests: one that acquires runs until its deferred release, whichever way it ends.

  datatype State = State(perIP: map<string, int>, running: map<nat, string>)

  datatype Step = Arrive(id: nat, key: string) | Leave(id: nat)

  predicate Enabled(s: State, step: Step) {
    match step
    case Arrive(id, _) => id !in s.running
    case Leave(id) => id in s.running
  }

  predicate Refused(s: State, step: Step, max: int) {
    step.Arrive? && Count(s.perIP, step.key) >= max
  }

  function After(s: State, step: Step, max: int): State
    requires Enabled(s, step)
  {
    match step
    case Arrive(id, key) =>
      if Refused(s, step, max) then s else State(Acquired(s.perIP, key), s.running[id := key])
    case Leave(id) => State(Released(s.perIP, s.running[id]), s.running - {id})
  }

  ghost predicate Run(steps: seq<Step>, states: seq<State>, max: int) {
    && |states| == |steps| + 1 && states[0] == State(map[], map[])
    && forall i | 0 <= i < |steps| :: Enabled(states[i], steps[i]) && states[i + 1] == After(states[i], steps[i], max)
  }

  /** The requests running for a key. */
  function Holders(running: map<nat, string>, key: string): set<nat> {
    set id | id in running && running[id] == key
  }

  ghost predicate Accounted(s: State, key: string, max: int) {
    && Count(s.perIP, key) == |Holders(s.running, key)| <= max
    && (key in s.perIP <==> Holders(s.running, key) != {})
  }

  lemma StepKeepsAccounts(s: State, step: Step, max: int, key: string)
    requires 1 <= max && Enabled(s, step) && (forall k :: Accounted(s, k, max))
    ensures Accounted(After(s, step, max), key, max)
  {
    var t := After(s, step, max);
    assert Accounted(s, key, max);
    var moved := if step.Arrive? then step.key else s.running[step.id];
    if Refused(s, step, max) {
    } else if key != moved {
      assert Holders(t.running, key) == Holders(s.running, key);
    } else if step.Arrive? {
      assert Holders(t.running, key) == Holders(s.running, key) + {step.id};
    } else {
      assert Holders(t.running, key) == Holders(s.running, key) - {step.id};
      assert step.id in Holders(s.running, key);
    }
  }

  /**
   In any interleaving the count under a key is the number of its running requests, never above the cap, and kept
   only while there are any.
   */
  lemma {:induction false} CountsAreRunningRequests(steps: seq<Step>, states: seq<State>, max: int, n: nat)
    requires 1 <= max && Run(steps, states, max) && n < |states|
    ensures forall key :: Accounted(states[n], key, max)
  {
    if n > 0 {
      CountsAreRunningRequests(steps, states, max, n - 1);
      forall key ensures Accounted(states[n], key, max) {
        StepKeepsAccounts(states[n - 1], steps[n - 1], max, key);
      }
    } else {
      forall key ensures Accounted(states[n], key, max) {
        assert Holders(states[0].running, key) == {};
      }
    }
  }

  /** A request is refused exactly when the cap is used up by others, and no release finds its count at zero. */
  lemma RefusedExactlyAtTheCap(steps: seq<Step>, states: seq<State>, max: int, n: nat)
    requires 1 <= max && Run(steps, states, max) && n < |steps|
    ensures steps[n].Arrive? ==>
              (Refused(states[n], steps[n], max) <==> |Holders(states[n].running, steps[n].key)| == max)
              && steps[n].id !in Holders(states[n].running, steps[n].key)
    ensures steps[n].Leave? ==> Count(states[n].perIP, states[n].running[steps[n].id]) >= 1
  {
    CountsAreRunningRequests(steps, states, max, n);
    if steps[n].Arrive? {
      assert Accounted(states[n], steps[n].key, max);
    } else {
      var key := states[n].running[steps[n].id];
      assert Accounted(states[n], key, max) && steps[n].id in Holders(states[n].running, key);
    }
  }

  /** When every request is done the gate is empty. */
  lemma IdleGateIsEmpty(steps: seq<Step>, states: seq<State>, max: int, n: nat)
    requires 1 <= max && Run(steps, states, max) && n < |states| && states[n].running == map[]
    ensures states[n].perIP == map[]
  {
    CountsAreRunningRequests(steps, states, max, n);
    forall key ensures key !in states[n].perIP {
      assert Accounted(states[n], key, max) && Holders(states[n].running, key) == {};
    }
  }
}
