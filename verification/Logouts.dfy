/** Logging out (routes/session.go): exactly when a session that was logged out can come back. */
module Logouts {
  import opened Common
  import opened Sessions
  import opened SessionStore
  import opened SignIn
  import opened SignInProofs
  import opened SessionProofs
  import opened SignInRuns

  /**
   A request in flight that can still put the session `sid` into the store: it is about to store it, or it holds it, or
   is about to be admitted on it, and has yet to ask for a token. A request that logs out, or has all the tokens it
   asks for, cannot.
   */
  predicate Revives(t: Task, now: int, sid: string) {
    match t
    case Opening(_, id, _) => id == sid
    case Resolving(id, Some(e), verb, header, work) =>
      id == sid && !Expired(e, now) && Admits(e.data, verb, header) && AsksAhead(work)
    case Serving(id, _, work) => id == sid && AsksAhead(work)
    case Storing(id, _, _) => id == sid
    case _ => false
  }

  /** A request presenting `sid` now finds a live session. */
  predicate Resolves(s: State, sid: string) {
    sid in s.sessions && !Expired(s.sessions[sid], s.now)
  }

  /** The id was minted, it resolves to nothing, and nothing in flight can bring it back. */
  ghost predicate Lost(s: State, sid: string) {
    && sid in s.owners && !Resolves(s, sid)
    && forall id | id in s.tasks :: !Revives(s.tasks[id], s.now, sid)
  }

  /** What becomes of the session's entry when others' are stored or removed. */
  ghost predicate NotStored(s: State, t: State, sid: string) {
    sid in t.owners && (sid in t.sessions ==> sid in s.sessions && t.sessions[sid] == s.sessions[sid])
  }

  lemma MoveKeepsLost(s: State, t: State, id: nat, task: Option<Task>, events: seq<Event>, sid: string)
    requires Lost(s, sid) && Moves(s, t, id, task, events)
    requires NotStored(s, t, sid) && (task.Some? ==> !Revives(task.value, s.now, sid))
    ensures Lost(t, sid)
  {}

  lemma SignInStepKeepsLost(c: Config, s: State, step: Step, sid: string)
    requires Enabled(c, s, step) && Lost(s, sid)
    requires (step.Start? || step.Answer? || step.Land? || step.Check? || step.Redeem? || step.Open?)
    ensures Lost(After(c, s, step), sid) && NotStored(s, After(c, s, step), sid)
  {
    var t, id := After(c, s, step), step.id;
    match step
    case Start(_, browser, sent, random, flow, state) =>
      StartMoves(c, s, step);
      MoveKeepsLost(s, t, id, Some(t.tasks[id]), t.log[|s.log|..], sid);
    case Answer(_) =>
      AnswerMoves(c, s, step);
      MoveKeepsLost(s, t, id, None, t.log[|s.log|..], sid);
    case Land(_, r) =>
      if Gate(r).Ok? {
        var events := LandMoves(c, s, step);
        MoveKeepsLost(s, t, id, Some(t.tasks[id]), events, sid);
      }
    case Check(_) =>
      var task, events := CheckMoves(c, s, step);
      MoveKeepsLost(s, t, id, task, events, sid);
    case Redeem(_, _, _, _) =>
      var task, events := RedeemMoves(c, s, step);
      MoveKeepsLost(s, t, id, task, events, sid);
    case Open(_) =>
      OpenMoves(c, s, step);
      assert !Revives(s.tasks[id], s.now, sid);
      MoveKeepsLost(s, t, id, None, t.log[|s.log|..], sid);
  }

  lemma RequestStepKeepsLost(c: Config, s: State, step: Step, sid: string)
    requires Enabled(c, s, step) && Lost(s, sid) && (step.Request? || step.Admit? || step.Logout? || step.Drop?)
    ensures Lost(After(c, s, step), sid) && NotStored(s, After(c, s, step), sid)
  {
    var t, id := After(c, s, step), step.id;
    assert id in s.tasks ==> !Revives(s.tasks[id], s.now, sid);
    match step
    case Request(_, _, _, _, _) =>
      RequestMoves(c, s, step);
      MoveKeepsLost(s, t, id, Some(t.tasks[id]), [], sid);
    case Admit(_) =>
      var task := AdmitMoves(c, s, step);
      MoveKeepsLost(s, t, id, task, [], sid);
    case Logout(_) =>
      LogoutMoves(c, s, step);
      MoveKeepsLost(s, t, id, None, [], sid);
    case Drop(_) =>
      DropMoves(c, s, step);
      MoveKeepsLost(s, t, id, None, [], sid);
  }

  lemma TokenStepKeepsLost(c: Config, s: State, step: Step, sid: string)
    requires Enabled(c, s, step) && Lost(s, sid) && (step.HandOut? || step.Renew? || step.Save?)
    ensures Lost(After(c, s, step), sid) && NotStored(s, After(c, s, step), sid)
  {
    var t, id := After(c, s, step), step.id;
    assert !Revives(s.tasks[id], s.now, sid);
    match step
    case HandOut(_) =>
      HandOutMoves(c, s, step);
      MoveKeepsLost(s, t, id, Some(t.tasks[id]), t.log[|s.log|..], sid);
    case Renew(_, _) =>
      RenewMoves(c, s, step);
      MoveKeepsLost(s, t, id, Some(t.tasks[id]), t.log[|s.log|..], sid);
    case Save(_) =>
      SaveMoves(c, s, step);
      MoveKeepsLost(s, t, id, Some(t.tasks[id]), t.log[|s.log|..], sid);
  }

  lemma StepKeepsLost(c: Config, s: State, step: Step, sid: string)
    requires Enabled(c, s, step) && Lost(s, sid)
    ensures Lost(After(c, s, step), sid) && NotStored(s, After(c, s, step), sid)
  {
    if step.Tick? {
      assert forall id | id in s.tasks :: !Revives(s.tasks[id], s.now, sid);
    } else if step.HandOut? || step.Renew? || step.Save? {
      TokenStepKeepsLost(c, s, step, sid);
    } else if step.Request? || step.Admit? || step.Logout? || step.Drop? {
      RequestStepKeepsLost(c, s, step, sid);
    } else {
      SignInStepKeepsLost(c, s, step, sid);
    }
  }

  lemma {:induction false} LostStaysLost(c: Config, s: State, steps: seq<Step>, t: State, sid: string)
    requires Leads(c, s, steps, t) && Lost(s, sid)
    ensures Lost(t, sid)
    decreases |steps|
  {
    if steps != [] {
      StepKeepsLost(c, s, steps[0], sid);
      LostStaysLost(c, After(c, s, steps[0]), steps[1..], t, sid);
    }
  }

  /** Waiting until the token in hand is no longer handed out as it is. */
  lemma TokenAges(c: Config, s: State, session: Session) returns (wait: nat)
    ensures After(c, s, Tick(wait)) == s.(now := s.now + wait) && !Reusable(session, s.now + wait)
  {
    wait := ReuseEnds(session, s.now);
  }

  /** A request that holds a session of this id and has yet to ask for a token stores it. */
  lemma HolderStores(c: Config, s: State, id: nat, sid: string) returns (steps: seq<Step>, t: State)
    requires id in s.tasks && Revives(s.tasks[id], s.now, sid) && !s.tasks[id].Resolving?
    ensures Leads(c, s, steps, t) && Resolves(t, sid)
  {
    if s.tasks[id].Opening? {
      OpenMoves(c, s, Open(id));
      LeadsFurther(c, s, [], s, Open(id));
      steps, t := [Open(id)], After(c, s, Open(id));
    } else if s.tasks[id].Storing? {
      SaveMoves(c, s, Save(id));
      LeadsFurther(c, s, [], s, Save(id));
      steps, t := [Save(id)], After(c, s, Save(id));
    } else {
      steps, t := ServedStores(c, s, id, sid);
    }
  }

  /** It asks once its token has aged, and keeps the one it gets. */
  lemma ServedStores(c: Config, s: State, id: nat, sid: string) returns (steps: seq<Step>, t: State)
    requires id in s.tasks && s.tasks[id].Serving? && s.tasks[id].sid == sid && AsksAhead(s.tasks[id].work)
    ensures Leads(c, s, steps, t) && Resolves(t, sid)
  {
    var wait := TokenAges(c, s, s.tasks[id].session);
    LeadsFurther(c, s, [], s, Tick(wait));
    var waited := After(c, s, Tick(wait));
    var renew := Renew(id, Tokens("", "", 0, None));
    RenewMoves(c, waited, renew);
    LeadsFurther(c, s, [Tick(wait)], waited, renew);
    var renewed := After(c, waited, renew);
    SaveMoves(c, renewed, Save(id));
    LeadsFurther(c, s, [Tick(wait), renew], renewed, Save(id));
    steps, t := [Tick(wait), renew, Save(id)], After(c, renewed, Save(id));
  }

  lemma RequestRevives(c: Config, s: State, id: nat, sid: string) returns (steps: seq<Step>, t: State)
    requires id in s.tasks && Revives(s.tasks[id], s.now, sid)
    ensures Leads(c, s, steps, t) && Resolves(t, sid)
  {
    if s.tasks[id].Resolving? {
      var task := AdmitMoves(c, s, Admit(id));
      var admitted := After(c, s, Admit(id));
      LeadsFurther(c, s, [], s, Admit(id));
      var more, end := HolderStores(c, admitted, id, sid);
      LeadsOn(c, s, [Admit(id)], admitted, more, end);
      steps, t := [Admit(id)] + more, end;
    } else {
      steps, t := HolderStores(c, s, id, sid);
    }
  }

  /** Some continuation makes the session resolve. */
  ghost predicate ComesBack(c: Config, s: State, sid: string) {
    exists steps, t :: Leads(c, s, steps, t) && Resolves(t, sid)
  }

  ghost predicate InFlight(s: State, sid: string) {
    exists id :: id in s.tasks && Revives(s.tasks[id], s.now, sid)
  }

  /**
   A session that does not resolve, because it is not stored or has expired, can come back exactly if a request in
   flight can bring it back.
   */
  lemma ComesBackExactly(c: Config, s: State, sid: string)
    requires sid in s.owners && !Resolves(s, sid)
    ensures ComesBack(c, s, sid) <==> InFlight(s, sid)
  {
    if InFlight(s, sid) {
      var id :| id in s.tasks && Revives(s.tasks[id], s.now, sid);
      var steps, t := RequestRevives(c, s, id, sid);
    } else if ComesBack(c, s, sid) {
      var steps, t :| Leads(c, s, steps, t) && Resolves(t, sid);
      LostStaysLost(c, s, steps, t, sid);
      assert false;
    }
  }

  /**
   A logout can be undone exactly if another request in flight is about to store the session, or holds it or will be
   admitted on it and has yet to ask for a token.
   */
  lemma LogoutIsFinalExactly(c: Config, s: State, id: nat)
    requires Enabled(c, s, Logout(id)) && s.tasks[id].sid in s.owners
    ensures var sid := s.tasks[id].sid;
            ComesBack(c, After(c, s, Logout(id)), sid) <==>
            exists other :: other in s.tasks && other != id && Revives(s.tasks[other], s.now, sid)
  {
    var sid, out := s.tasks[id].sid, After(c, s, Logout(id));
    LogoutMoves(c, s, Logout(id));
    ComesBackExactly(c, out, sid);
    if other :| other in s.tasks && other != id && Revives(s.tasks[other], s.now, sid) {
      assert other in out.tasks && out.tasks[other] == s.tasks[other];
    }
  }

  /**
   In every run, after a logout with no such other request, the store never holds the session again, and nothing in
   flight can bring it back.
   */
  lemma {:induction false} LogoutIsFinal(c: Config, steps: seq<Step>, states: seq<State>, i: nat, j: nat, sid: string)
    requires WellFormed(c) && Run(c, steps, states) && i < j < |states| && steps[i].Logout?
    requires steps[i].id in states[i].tasks && states[i].tasks[steps[i].id].Serving?
    requires states[i].tasks[steps[i].id].sid == sid
    requires forall other | other in states[i].tasks && other != steps[i].id ::
             !Revives(states[i].tasks[other], states[i].now, sid)
    ensures Lost(states[j], sid) && sid !in states[j].sessions
    decreases j
  {
    var s, id := states[i], steps[i].id;
    assert Takes(c, steps, states, j - 1);
    if j == i + 1 {
      RunKeepsInv(c, steps, states, i);
      assert Owned(s, sid, s.tasks[id].session) by { assert Held(s.tasks[id]) == Some((sid, s.tasks[id].session)); }
      LogoutMoves(c, s, steps[i]);
    } else {
      LogoutIsFinal(c, steps, states, i, j - 1, sid);
      StepKeepsLost(c, states[j - 1], steps[j - 1], sid);
    }
  }

  /** A request on a live session that brings its anti-forgery token is admitted. */
  lemma LiveSessionIsAdmitted(c: Config, s: State, id: nat, sid: string, work: Work)
      returns (steps: seq<Step>, t: State)
    requires id !in s.tasks && Resolves(s, sid) && s.sessions[sid].data.csrf != "" && Routed("POST", work)
    ensures Leads(c, s, steps, t) && SameSessions(s, t) && t.now == s.now
    ensures t.tasks == s.tasks[id := Serving(sid, s.sessions[sid].data, work)]
  {
    var ask := Request(id, sid, "POST", s.sessions[sid].data.csrf, work);
    RequestMoves(c, s, ask);
    LeadsFurther(c, s, [], s, ask);
    var asked := After(c, s, ask);
    var task := AdmitMoves(c, asked, Admit(id));
    LeadsFurther(c, s, [ask], asked, Admit(id));
    steps, t := [ask, Admit(id)], After(c, asked, Admit(id));
    assert t.tasks == s.tasks[id := Serving(sid, s.sessions[sid].data, work)];
  }

  /**
   The condition matters: from every state with a live session there are steps to a logout of it that some
   continuation undoes.
   */
  lemma LogoutCanBeUndone(c: Config, s: State, first: nat, other: nat, sid: string)
      returns (before: seq<Step>, t: State)
    requires first != other && first !in s.tasks && other !in s.tasks
    requires Resolves(s, sid) && s.sessions[sid].data.csrf != "" && sid in s.owners
    ensures Leads(c, s, before, t) && Enabled(c, t, Logout(first)) && t.tasks[first].sid == sid
    ensures ComesBack(c, After(c, t, Logout(first)), sid)
  {
    var logout, one := LiveSessionIsAdmitted(c, s, first, sid, Leaving);
    var refresh, both := LiveSessionIsAdmitted(c, one, other, sid, Refreshing);
    LeadsOn(c, s, logout, one, refresh, both);
    before, t := logout + refresh, both;
    assert Revives(t.tasks[other], t.now, sid);
    LogoutIsFinalExactly(c, t, first);
  }
}
