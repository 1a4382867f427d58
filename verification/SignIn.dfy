/**
 Sign-ins and sessions as a system of steps (routes/session.go, routes/cookies.go, routes/middleware.go). Requests
 interleave at the granularity of store operations: between two of them any other request may take any number of
 its own steps. Browsers and the Auth Service may send anything.
 */
module SignIn {
  import opened Common
  import opened FlowKey
  import opened Sessions
  import opened SessionStore
  import MethodNames

  /**
   `hash` is SHA-256; `bindings` are the binding values in play; `subject` reads the subject out of an access token.
   */
  datatype Config = Config(
    flowTTL: nat, sessionTTL: nat, hash: string -> seq<Byte>, subject: string -> string, bindings: set<string>)

  /** The hash has its fixed length and does not collide on the bindings in play. */
  ghost predicate WellFormed(c: Config) {
    && (forall b | b in c.bindings :: |c.hash(b)| == HASH_BYTES)
    && forall a, b | a in c.bindings && b in c.bindings && c.hash(a) == c.hash(b) :: a == b
  }

  datatype Cookie = Cookie(binding: string, expires: int)

  /** A cookie's life is set in whole seconds. */
  function MaxAge(c: Config): int {
    c.flowTTL / SECOND * SECOND
  }

  /** What the browser brings back from the Auth Service; an absent parameter is empty. */
  datatype Return = Return(issuerNamed: bool, error: string, code: string, state: string, sent: string)

  /** The checks a return passes before the store is asked, with the marker the browser is sent away with. */
  function Gate(r: Return): Result<string, string> {
    if !r.issuerNamed then Err("login_failed")
    else if r.error != "" then Err(if r.error == "access_denied" then "cancelled" else "idp_error")
    else if r.code == "" || r.state == "" then Err("missing_code")
    else if BrowserBinding(r.sent) == "" then Err("expired")
    else Ok(BrowserBinding(r.sent))
  }

  predicate StateChanging(verb: string) {
    verb !in {"GET", "HEAD", "OPTIONS"}
  }

  /** Whether a request on a resolved session goes on to its handler. */
  predicate Admits(s: Session, verb: string, header: string) {
    StateChanging(verb) ==> s.csrf != "" && header == s.csrf
  }

  /**
   What a request on a session does with it: it logs out, refreshes, or asks for the access token this many more
   times.
   */
  datatype Work = Leaving | Refreshing | Asking(left: nat)

  /**
   The routes behind a session. Each asks for the token once, but the envelope view may ask again for the viewer's
   name.
   */
  predicate Routed(verb: string, work: Work) {
    match work
    case Leaving => verb == "POST"
    case Refreshing => verb == "POST"
    case Asking(n) => n == 1 || (n == 2 && verb == "GET")
  }

  /** Whether the request has yet to ask for a token, and so may yet store the session. */
  predicate AsksAhead(work: Work) {
    work.Refreshing? || (work.Asking? && work.left > 0)
  }

  /** A refresh asks the Auth Service in any case, other work only when the token in hand is about to expire. */
  predicate Renews(work: Work, session: Session, now: int) {
    AsksAhead(work) && (work.Refreshing? || !Reusable(session, now))
  }

  /** What is left to do once a token was got. */
  function Spent(work: Work): Work
    requires AsksAhead(work)
  {
    Asking(if work.Refreshing? then 0 else work.left - 1)
  }

  /** A request between two of its steps. */
  datatype Task =
    | // parked; the answer is on its way
      Starting(browser: nat, state: string, binding: string)
    | // removed; the clock not yet read
      Taking(state: string, code: string, parked: Option<Entry<Flow>>)
    | // flow in hand
      Redeeming(state: string, code: string, flow: Flow)
    | // session built, not yet stored
      Opening(state: string, sid: string, session: Session)
    | // entry read; the clock not yet read
      Resolving(sid: string, found: Option<Entry<Session>>, verb: string, header: string, work: Work)
    | // the handler runs
      Serving(sid: string, session: Session, work: Work)
    | // tokens applied, not yet stored
      Storing(sid: string, session: Session, work: Work)

  /** What has happened, for the record. */
  datatype Event =
    | Started(state: string, binding: string, flow: Flow, at: int)
    | Claimed(state: string, task: nat, sent: string)
    | Taken(state: string, flow: Flow)
    | Exchanged(state: string, code: string, flow: Flow)
    | SessionOpened(state: string, sid: string, session: Session)
    | Delivered(state: string, browser: nat)
    | SessionSaved(sid: string, session: Session)
    | Answered(tokens: Tokens, at: int)
    | HandedOut(sid: string, token: string, at: int)

  /**
   `states` and `owners` record the random values handed out so far; `owners` with what each session id was minted
   for.
   */
  datatype State = State(
    now: int,
    flows: map<string, Entry<Flow>>,
    sessions: map<string, Entry<Session>>,
    tasks: map<nat, Task>,
    jars: map<nat, Cookie>,
    states: set<string>,
    owners: map<string, Identity>,
    log: seq<Event>)

  predicate Initial(s: State) {
    s == State(s.now, map[], map[], map[], map[], {}, map[], [])
  }

  datatype Step =
    | Tick(elapsed: nat)
    | Start(id: nat, browser: nat, sent: string, random: seq<Byte>, flow: Flow, state: string)
    | Answer(id: nat)
    | Land(id: nat, return_: Return)
    | Check(id: nat)
    | Redeem(id: nat, reply: Option<Tokens>, sid: string, csrf: string)
    | Open(id: nat)
    | Request(id: nat, sid: string, verb: string, header: string, work: Work)
    | Admit(id: nat)
    | HandOut(id: nat)
    | Renew(id: nat, tokens: Tokens)
    | Save(id: nat)
    | Logout(id: nat)
    | Drop(id: nat)

  function ParkingKey(c: Config, state: string, binding: string): string {
    Key(state, c.hash(binding))
  }

  /** When a step can be taken; random values are fresh, and bindings are ones in play. */
  predicate Enabled(c: Config, s: State, step: Step) {
    match step
    case Tick(_) => true
    case Start(id, _, sent, random, flow, state) =>
      && id !in s.tasks && |random| == BINDING_BYTES && BindBrowser(sent, random) in c.bindings
      && state !in s.states && flow.started == s.now
      && (flow.acrValues == "" || MethodNames.Accepted(flow.acrValues))
    case Answer(id) => id in s.tasks && s.tasks[id].Starting?
    case Land(id, r) => id !in s.tasks && (Gate(r).Ok? ==> Gate(r).value in c.bindings)
    case Check(id) => id in s.tasks && s.tasks[id].Taking?
    case Redeem(id, _, sid, _) => id in s.tasks && s.tasks[id].Redeeming? && sid !in s.owners
    case Open(id) => id in s.tasks && s.tasks[id].Opening?
    case Request(id, _, verb, _, work) => id !in s.tasks && Routed(verb, work)
    case Admit(id) => id in s.tasks && s.tasks[id].Resolving?
    case HandOut(id) =>
      && id in s.tasks && s.tasks[id].Serving? && AsksAhead(s.tasks[id].work)
      && !Renews(s.tasks[id].work, s.tasks[id].session, s.now)
    case Renew(id, _) => id in s.tasks && s.tasks[id].Serving? && Renews(s.tasks[id].work, s.tasks[id].session, s.now)
    case Save(id) => id in s.tasks && s.tasks[id].Storing?
    case Logout(id) => id in s.tasks && s.tasks[id].Serving? && s.tasks[id].work.Leaving?
    case Drop(id) => id in s.tasks
  }

  function BuildSession(c: Config, flow: Flow, tokens: Tokens, csrf: string, now: int): Session {
    ApplyTokens(Session(flow.key, "", 0, tokens.refreshToken, c.subject(tokens.accessToken), csrf, tokens.capabilities),
      tokens, now)
  }

  function After(c: Config, s: State, step: Step): State
    requires Enabled(c, s, step)
  {
    match step
    case Tick(elapsed) => s.(now := s.now + elapsed)
    case Start(id, browser, sent, random, flow, state) =>
      var binding := BindBrowser(sent, random);
      s.(flows := s.flows[ParkingKey(c, state, binding) := Entry(flow, s.now + c.flowTTL)],
         tasks := s.tasks[id := Starting(browser, state, binding)],
         states := s.states + {state},
         log := s.log + [Started(state, binding, flow, s.now)])
    case Answer(id) =>
      var t := s.tasks[id];
      s.(jars := s.jars[t.browser := Cookie(t.binding, s.now + MaxAge(c))],
         tasks := s.tasks - {id},
         log := s.log + [Delivered(t.state, t.browser)])
    case Land(id, r) =>
      if Gate(r).Err? then s else
        var k := ParkingKey(c, r.state, Gate(r).value);
        s.(flows := s.flows - {k},
           tasks := s.tasks[id := Taking(r.state, r.code, Lookup(s.flows, k))],
           log := if k in s.flows then s.log + [Claimed(r.state, id, Gate(r).value)] else s.log)
    case Check(id) =>
      var t := s.tasks[id];
      var flow := Opened(t.parked, s.now);
      if flow.None? then s.(tasks := s.tasks - {id})
      else s.(tasks := s.tasks[id := Redeeming(t.state, t.code, flow.value)],
        log := s.log + [Taken(t.state, flow.value)])
    case Redeem(id, reply, sid, csrf) =>
      var t := s.tasks[id];
      var exchanged := Exchanged(t.state, t.code, t.flow);
      if reply.None? then s.(tasks := s.tasks - {id}, log := s.log + [exchanged])
      else
        var session := BuildSession(c, t.flow, reply.value, csrf, s.now);
        s.(tasks := s.tasks[id := Opening(t.state, sid, session)],
           owners := s.owners[sid := IdentityOf(session)],
           log := s.log + [exchanged] + [Answered(reply.value, s.now)])
    case Open(id) =>
      var t := s.tasks[id];
      s.(sessions := s.sessions[t.sid := Entry(t.session, s.now + c.sessionTTL)],
         tasks := s.tasks - {id},
         log := s.log + [SessionOpened(t.state, t.sid, t.session)])
    case Request(id, sid, verb, header, work) =>
      s.(tasks := s.tasks[id := Resolving(sid, Lookup(s.sessions, sid), verb, header, work)])
    case Admit(id) =>
      var t := s.tasks[id];
      var session := Opened(t.found, s.now);
      if session.None? || !Admits(session.value, t.verb, t.header) then s.(tasks := s.tasks - {id})
      else s.(tasks := s.tasks[id := Serving(t.sid, session.value, t.work)])
    case HandOut(id) =>
      var t := s.tasks[id];
      s.(tasks := s.tasks[id := Serving(t.sid, t.session, Spent(t.work))],
         log := s.log + [HandedOut(t.sid, t.session.accessToken, s.now)])
    case Renew(id, tokens) =>
      var t := s.tasks[id];
      s.(tasks := s.tasks[id := Storing(t.sid, ApplyTokens(t.session, tokens, s.now), Spent(t.work))],
         log := s.log + [Answered(tokens, s.now)])
    case Save(id) =>
      var t := s.tasks[id];
      s.(sessions := s.sessions[t.sid := Entry(t.session, s.now + c.sessionTTL)],
         tasks := s.tasks[id := Serving(t.sid, t.session, t.work)],
         log := s.log + [SessionSaved(t.sid, t.session)])
    case Logout(id) =>
      s.(sessions := s.sessions - {s.tasks[id].sid}, tasks := s.tasks - {id})
    case Drop(id) => s.(tasks := s.tasks - {id})
  }

  ghost predicate Takes(c: Config, steps: seq<Step>, states: seq<State>, i: nat)
    requires i < |steps| < |states|
  {
    Enabled(c, states[i], steps[i]) && states[i + 1] == After(c, states[i], steps[i])
  }

  /** A run visits `states`, one step at a time, from an initial state. */
  ghost predicate Run(c: Config, steps: seq<Step>, states: seq<State>) {
    && |states| == |steps| + 1 && Initial(states[0])
    && forall i: nat | i < |steps| :: Takes(c, steps, states, i)
  }

  /** Taking `steps` one after another leads from `s` to `t`. */
  ghost predicate Leads(c: Config, s: State, steps: seq<Step>, t: State)
    decreases |steps|
  {
    if steps == [] then s == t else Enabled(c, s, steps[0]) && Leads(c, After(c, s, steps[0]), steps[1..], t)
  }

  lemma {:induction false} LeadsOn(c: Config, s: State, steps: seq<Step>, t: State, more: seq<Step>, u: State)
    requires Leads(c, s, steps, t) && Leads(c, t, more, u)
    ensures Leads(c, s, steps + more, u)
    decreases |steps|
  {
    if steps == [] {
      assert steps + more == more;
    } else {
      LeadsOn(c, After(c, s, steps[0]), steps[1..], t, more, u);
      assert (steps + more)[1..] == steps[1..] + more;
    }
  }

  lemma LeadsFurther(c: Config, s: State, steps: seq<Step>, t: State, step: Step)
    requires Leads(c, s, steps, t) && Enabled(c, t, step)
    ensures Leads(c, s, steps + [step], After(c, t, step))
  {
    assert Leads(c, t, [step], After(c, t, step)) by { assert Leads(c, After(c, t, step), [], After(c, t, step)); }
    LeadsOn(c, s, steps, t, [step], After(c, t, step));
  }

  // What a step changes.

  /** At one instant, the request `id` goes on as `task`, or ends, and `events` are recorded. */
  ghost predicate Moves(s: State, t: State, id: nat, task: Option<Task>, events: seq<Event>) {
    && t.tasks == (if task.None? then s.tasks - {id} else s.tasks[id := task.value])
    && t.log == s.log + events && t.now == s.now
  }

  ghost predicate SameSignIns(s: State, t: State) {
    t.flows == s.flows && t.states == s.states && t.jars == s.jars
  }

  ghost predicate SameSessions(s: State, t: State) {
    t.sessions == s.sessions && t.owners == s.owners
  }

  lemma StartMoves(c: Config, s: State, step: Step)
    requires step.Start? && Enabled(c, s, step)
    ensures var t, binding := After(c, s, step), BindBrowser(step.sent, step.random);
            && Moves(s, t, step.id, Some(Starting(step.browser, step.state, binding)),
                 [Started(step.state, binding, step.flow, s.now)])
            && t.flows == s.flows[ParkingKey(c, step.state, binding) := Entry(step.flow, s.now + c.flowTTL)]
            && t.states == s.states + {step.state} && t.jars == s.jars && SameSessions(s, t)
  {}

  lemma AnswerMoves(c: Config, s: State, step: Step)
    requires step.Answer? && Enabled(c, s, step)
    ensures var t, task := After(c, s, step), s.tasks[step.id];
            && Moves(s, t, step.id, None, [Delivered(task.state, task.browser)])
            && t.jars == s.jars[task.browser := Cookie(task.binding, s.now + MaxAge(c))]
            && t.flows == s.flows && t.states == s.states && SameSessions(s, t)
  {}

  lemma LandMoves(c: Config, s: State, step: Step) returns (events: seq<Event>)
    requires step.Land? && Enabled(c, s, step) && Gate(step.return_).Ok?
    ensures var t, r := After(c, s, step), step.return_;
            var k := ParkingKey(c, r.state, Gate(r).value);
            && Moves(s, t, step.id, Some(Taking(r.state, r.code, Lookup(s.flows, k))), events)
            && events == (if k in s.flows then [Claimed(r.state, step.id, Gate(r).value)] else [])
            && t.flows == s.flows - {k} && t.states == s.states && t.jars == s.jars && SameSessions(s, t)
  {
    var r := step.return_;
    events :=
      if ParkingKey(c, r.state, Gate(r).value) in s.flows then [Claimed(r.state, step.id, Gate(r).value)] else [];
    assert s.log + [] == s.log;
  }

  lemma CheckMoves(c: Config, s: State, step: Step) returns (task: Option<Task>, events: seq<Event>)
    requires step.Check? && Enabled(c, s, step)
    ensures var t, was := After(c, s, step), s.tasks[step.id];
            var flow := Opened(was.parked, s.now);
            && Moves(s, t, step.id, task, events) && SameSignIns(s, t) && SameSessions(s, t)
            && task == (if flow.None? then None else Some(Redeeming(was.state, was.code, flow.value)))
            && events == (if flow.None? then [] else [Taken(was.state, flow.value)])
  {
    var was := s.tasks[step.id];
    var flow := Opened(was.parked, s.now);
    task := if flow.None? then None else Some(Redeeming(was.state, was.code, flow.value));
    events := if flow.None? then [] else [Taken(was.state, flow.value)];
    assert s.log + [] == s.log;
  }

  lemma RedeemMoves(c: Config, s: State, step: Step) returns (task: Option<Task>, events: seq<Event>)
    requires step.Redeem? && Enabled(c, s, step)
    ensures var t, was := After(c, s, step), s.tasks[step.id];
            var exchanged := Exchanged(was.state, was.code, was.flow);
            && Moves(s, t, step.id, task, events) && SameSignIns(s, t) && t.sessions == s.sessions
            && (step.reply.None? ==> task.None? && events == [exchanged] && t.owners == s.owners)
            && (step.reply.Some? ==>
                  var session := BuildSession(c, was.flow, step.reply.value, step.csrf, s.now);
                  && task == Some(Opening(was.state, step.sid, session))
                  && events == [exchanged, Answered(step.reply.value, s.now)]
                  && t.owners == s.owners[step.sid := IdentityOf(session)])
  {
    var was := s.tasks[step.id];
    var exchanged := Exchanged(was.state, was.code, was.flow);
    if step.reply.None? {
      task, events := None, [exchanged];
    } else {
      task := Some(Opening(was.state, step.sid, BuildSession(c, was.flow, step.reply.value, step.csrf, s.now)));
      events := [exchanged, Answered(step.reply.value, s.now)];
      assert s.log + events == s.log + [exchanged] + [Answered(step.reply.value, s.now)];
    }
  }

  lemma OpenMoves(c: Config, s: State, step: Step)
    requires step.Open? && Enabled(c, s, step)
    ensures var t, was := After(c, s, step), s.tasks[step.id];
            && Moves(s, t, step.id, None, [SessionOpened(was.state, was.sid, was.session)]) && SameSignIns(s, t)
            && t.sessions == s.sessions[was.sid := Entry(was.session, s.now + c.sessionTTL)] && t.owners == s.owners
  {}

  lemma RequestMoves(c: Config, s: State, step: Step)
    requires step.Request? && Enabled(c, s, step)
    ensures var t := After(c, s, step);
            && Moves(s, t, step.id,
                 Some(Resolving(step.sid, Lookup(s.sessions, step.sid), step.verb, step.header, step.work)), [])
            && SameSignIns(s, t) && SameSessions(s, t)
  {}

  lemma AdmitMoves(c: Config, s: State, step: Step) returns (task: Option<Task>)
    requires step.Admit? && Enabled(c, s, step)
    ensures var t, was := After(c, s, step), s.tasks[step.id];
            var session := Opened(was.found, s.now);
            && Moves(s, t, step.id, task, []) && SameSignIns(s, t) && SameSessions(s, t)
            && task == (if session.None? || !Admits(session.value, was.verb, was.header) then None
                        else Some(Serving(was.sid, session.value, was.work)))
  {
    var was := s.tasks[step.id];
    var session := Opened(was.found, s.now);
    task := if session.None? || !Admits(session.value, was.verb, was.header) then None
            else Some(Serving(was.sid, session.value, was.work));
  }

  lemma HandOutMoves(c: Config, s: State, step: Step)
    requires step.HandOut? && Enabled(c, s, step)
    ensures var t, was := After(c, s, step), s.tasks[step.id];
            && Reusable(was.session, s.now)
            && Moves(s, t, step.id, Some(Serving(was.sid, was.session, Spent(was.work))),
                 [HandedOut(was.sid, was.session.accessToken, s.now)])
            && SameSignIns(s, t) && SameSessions(s, t)
  {}

  lemma RenewMoves(c: Config, s: State, step: Step)
    requires step.Renew? && Enabled(c, s, step)
    ensures var t, was := After(c, s, step), s.tasks[step.id];
            && Moves(s, t, step.id,
                 Some(Storing(was.sid, ApplyTokens(was.session, step.tokens, s.now), Spent(was.work))),
                 [Answered(step.tokens, s.now)])
            && SameSignIns(s, t) && SameSessions(s, t)
  {}

  lemma SaveMoves(c: Config, s: State, step: Step)
    requires step.Save? && Enabled(c, s, step)
    ensures var t, was := After(c, s, step), s.tasks[step.id];
            && Moves(s, t, step.id, Some(Serving(was.sid, was.session, was.work)), [SessionSaved(was.sid, was.session)])
            && SameSignIns(s, t)
            && t.sessions == s.sessions[was.sid := Entry(was.session, s.now + c.sessionTTL)] && t.owners == s.owners
  {}

  lemma LogoutMoves(c: Config, s: State, step: Step)
    requires step.Logout? && Enabled(c, s, step)
    ensures var t := After(c, s, step);
            && Moves(s, t, step.id, None, []) && SameSignIns(s, t)
            && t.sessions == s.sessions - {s.tasks[step.id].sid} && t.owners == s.owners
  {}

  lemma DropMoves(c: Config, s: State, step: Step)
    requires step.Drop? && Enabled(c, s, step)
    ensures var t := After(c, s, step); Moves(s, t, step.id, None, []) && SameSignIns(s, t) && SameSessions(s, t)
  {}

  /** Only a start brings a request that has an answer to give. */
  lemma StartsComeFromStart(c: Config, s: State, step: Step)
    requires Enabled(c, s, step) && !step.Start?
    ensures forall id | id in After(c, s, step).tasks && After(c, s, step).tasks[id].Starting? ::
              id in s.tasks && s.tasks[id] == After(c, s, step).tasks[id]
  {
    match step
    case Land(_, r) => if Gate(r).Ok? { var events := LandMoves(c, s, step); }
    case Redeem(_, _, _, _) => var task, events := RedeemMoves(c, s, step);
    case Check(_) => var task, events := CheckMoves(c, s, step);
    case Admit(_) => var task := AdmitMoves(c, s, step);
    case _ =>
  }

  /**
   No step takes back an event or an instant; only answers reach a browser, and only starts and returns touch the
   flows.
   */
  lemma StepGrows(c: Config, s: State, step: Step)
    requires Enabled(c, s, step)
    ensures var t := After(c, s, step);
            && s.log <= t.log && s.now <= t.now
            && (!step.Answer? ==> t.jars == s.jars && forall i | |s.log| <= i < |t.log| :: !t.log[i].Delivered?)
            && (!step.Start? && !step.Land? ==> t.flows == s.flows)
  {
    match step
    case Tick(_) =>
    case Start(_, _, _, _, _, _) => StartMoves(c, s, step);
    case Answer(_) => AnswerMoves(c, s, step);
    case Land(_, r) => if Gate(r).Ok? { var events := LandMoves(c, s, step); }
    case Check(_) => var task, events := CheckMoves(c, s, step);
    case Redeem(_, _, _, _) => var task, events := RedeemMoves(c, s, step);
    case Open(_) => OpenMoves(c, s, step);
    case Request(_, _, _, _, _) => RequestMoves(c, s, step);
    case Admit(_) => var task := AdmitMoves(c, s, step);
    case HandOut(_) => HandOutMoves(c, s, step);
    case Renew(_, _) => RenewMoves(c, s, step);
    case Save(_) => SaveMoves(c, s, step);
    case Logout(_) => LogoutMoves(c, s, step);
    case Drop(_) => DropMoves(c, s, step);
  }
}
