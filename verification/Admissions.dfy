/**
 Which requests are served on a session (routes/middleware.go), on the fields of the request and the session alone.
 */
module Admissions {
  import opened Common
  import opened Sessions
  import opened SessionStore
  import opened SignIn

  /** The three methods that change nothing. */
  predicate Reads(verb: string) {
    verb == "GET" || verb == "HEAD" || verb == "OPTIONS"
  }

  /** The session takes the request: it only reads, or it brings the session's own token. */
  predicate TakesRequest(session: Session, verb: string, header: string) {
    Reads(verb) || (session.csrf != "" && header == session.csrf)
  }

  lemma AdmitsExactly(session: Session, verb: string, header: string)
    ensures Admits(session, verb, header) <==> TakesRequest(session, verb, header)
  {}

  /**
   A request whose session entry was read is served exactly if the entry is there and live and the session takes it:
   one that only reads is, whatever its header, any other with the anti-forgery token alone.
   */
  lemma ServedExactly(c: Config, s: State, id: nat)
    requires id in s.tasks && s.tasks[id].Resolving?
    ensures var was, t := s.tasks[id], After(c, s, Admit(id));
            && (id in t.tasks <==>
                  && was.found.Some? && s.now <= was.found.value.expires
                  && (was.verb == "GET" || was.verb == "HEAD" || was.verb == "OPTIONS"
                      || (was.found.value.data.csrf != "" && was.header == was.found.value.data.csrf)))
            && (id in t.tasks ==> t.tasks[id] == Serving(was.sid, was.found.value.data, was.work))
  {
    var task := AdmitMoves(c, s, Admit(id));
    if s.tasks[id].found.Some? {
      AdmitsExactly(s.tasks[id].found.value.data, s.tasks[id].verb, s.tasks[id].header);
    }
  }

  /** What a request between its steps still shows of the request it was. */
  ghost predicate CameFrom(t: Task, request: Step) {
    && request.Request?
    && match t
       case Resolving(sid, _, verb, header, _) => sid == request.sid && verb == request.verb && header == request.header
       case Serving(sid, session, _) => sid == request.sid && TakesRequest(session, request.verb, request.header)
       case Storing(sid, session, _) => sid == request.sid && TakesRequest(session, request.verb, request.header)
       case _ => true
  }

  predicate OnSession(t: Task) {
    t.Resolving? || t.Serving? || t.Storing?
  }

  predicate StepsSignIn(step: Step) {
    step.Start? || step.Answer? || step.Land? || step.Check? || step.Redeem? || step.Open?
  }

  lemma SignInStepOf(c: Config, s: State, step: Step)
    requires Enabled(c, s, step) && StepsSignIn(step)
    ensures forall id | id in After(c, s, step).tasks && id != step.id ::
              id in s.tasks && s.tasks[id] == After(c, s, step).tasks[id]
    ensures step.id in After(c, s, step).tasks ==>
              !OnSession(After(c, s, step).tasks[step.id]) || After(c, s, step) == s
  {
    match step
    case Start(_, _, _, _, _, _) => StartMoves(c, s, step);
    case Answer(_) => AnswerMoves(c, s, step);
    case Land(_, r) => if Gate(r).Ok? { var events := LandMoves(c, s, step); }
    case Check(_) => var task, events := CheckMoves(c, s, step);
    case Redeem(_, _, _, _) => var task, events := RedeemMoves(c, s, step);
    case Open(_) => OpenMoves(c, s, step);
  }

  lemma SessionStepOf(c: Config, s: State, step: Step, request: Step)
    requires Enabled(c, s, step) && !StepsSignIn(step) && !step.Tick?
    ensures forall id | id in After(c, s, step).tasks && id != step.id ::
              id in s.tasks && s.tasks[id] == After(c, s, step).tasks[id]
    ensures !step.Request? && step.id in After(c, s, step).tasks ==>
              && step.id in s.tasks && OnSession(s.tasks[step.id])
              && (CameFrom(s.tasks[step.id], request) ==> CameFrom(After(c, s, step).tasks[step.id], request))
  {
    match step
    case Request(_, _, _, _, _) => RequestMoves(c, s, step);
    case Admit(id) =>
      var task := AdmitMoves(c, s, step);
      ServedExactly(c, s, id);
    case HandOut(_) => HandOutMoves(c, s, step);
    case Renew(_, _) => RenewMoves(c, s, step);
    case Save(_) => SaveMoves(c, s, step);
    case Logout(_) => LogoutMoves(c, s, step);
    case Drop(_) => DropMoves(c, s, step);
  }

  lemma {:induction false} TaskCameFrom(c: Config, steps: seq<Step>, states: seq<State>, n: nat, id: nat)
      returns (m: nat)
    requires Run(c, steps, states) && n < |states| && id in states[n].tasks && OnSession(states[n].tasks[id])
    ensures m < n && steps[m].Request? && steps[m].id == id && CameFrom(states[n].tasks[id], steps[m])
  {
    var k := n - 1;
    assert Takes(c, steps, states, k);
    var s, step := states[k], steps[k];
    if step.Tick? {
      m := TaskCameFrom(c, steps, states, k, id);
    } else if StepsSignIn(step) {
      SignInStepOf(c, s, step);
      m := TaskCameFrom(c, steps, states, k, id);
    } else if step.Request? && step.id == id {
      RequestMoves(c, s, step);
      m := k;
    } else {
      SessionStepOf(c, s, step, step);
      m := TaskCameFrom(c, steps, states, k, id);
      SessionStepOf(c, s, step, steps[m]);
    }
  }

  /**
   In every run, a request that is being served came with a method that only reads, or with a header equal to the
   anti-forgery token, not empty, of the very session it is served on.
   */
  lemma ServedBroughtTheToken(c: Config, steps: seq<Step>, states: seq<State>, n: nat, id: nat) returns (m: nat)
    requires Run(c, steps, states) && n < |states| && id in states[n].tasks && states[n].tasks[id].Serving?
    ensures m < n && steps[m].Request? && steps[m].id == id && steps[m].sid == states[n].tasks[id].sid
    ensures steps[m].verb != "GET" && steps[m].verb != "HEAD" && steps[m].verb != "OPTIONS" ==>
              steps[m].header == states[n].tasks[id].session.csrf && steps[m].header != ""
  {
    m := TaskCameFrom(c, steps, states, n, id);
  }
}
