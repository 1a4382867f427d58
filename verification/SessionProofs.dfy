/**
 What every run keeps of the sessions: whose they are, where their tokens came from, and when a token may still be
 used.
 */
module SessionProofs {
  import opened Common
  import opened FlowKey
  import opened Sessions
  import opened SessionStore
  import opened SignIn

  /** The token and the expiry of `session` both come from the token response `e`. */
  ghost predicate Supplied(session: Session, e: Event) {
    e.Answered? && session.accessToken == e.tokens.accessToken
      && session.accessExpiry == Expiry(e.at, e.tokens.expiresIn)
  }

  /** A session value that belongs to the session id `sid`. */
  ghost predicate Owned(s: State, sid: string, session: Session) {
    && sid in s.owners && IdentityOf(session) == s.owners[sid]
    && exists e :: e in s.log && Supplied(session, e)
  }

  /** The session value a request holds, if it holds one. */
  function Held(t: Task): Option<(string, Session)> {
    match t
    case Opening(_, sid, session) => Some((sid, session))
    case Resolving(sid, Some(e), _, _, _) => Some((sid, e.data))
    case Serving(sid, session, _) => Some((sid, session))
    case Storing(sid, session, _) => Some((sid, session))
    case _ => None
  }

  /** The session value an event stored, if it stored one. */
  function Put(e: Event): Option<(string, Session)> {
    match e
    case SessionOpened(_, sid, session) => Some((sid, session))
    case SessionSaved(sid, session) => Some((sid, session))
    case _ => None
  }

  /** `use` hands out the token of `grant`, early enough. */
  ghost predicate UsesGrant(use: Event, grant: Event) {
    && use.HandedOut? && grant.Answered? && use.token == grant.tokens.accessToken && grant.at <= use.at
    && use.at - grant.at < Lifetime(grant.tokens.expiresIn) - REFRESH_LEEWAY
  }

  ghost predicate EventOk(s: State, e: Event) {
    && (Put(e).Some? ==> Owned(s, Put(e).value.0, Put(e).value.1))
    && (e.Answered? ==> e.at <= s.now)
    && (e.HandedOut? ==> exists g :: g in s.log && UsesGrant(e, g))
  }

  ghost predicate SessionsOk(s: State) {
    && (forall sid | sid in s.sessions :: Owned(s, sid, s.sessions[sid].data))
    && (forall id | id in s.tasks && Held(s.tasks[id]).Some? ::
          Owned(s, Held(s.tasks[id]).value.0, Held(s.tasks[id]).value.1))
    && (forall e | e in s.log :: EventOk(s, e))
  }

  ghost predicate Extends(s: State, t: State) {
    && s.log <= t.log && s.now <= t.now
    && forall sid | sid in s.owners :: sid in t.owners && t.owners[sid] == s.owners[sid]
  }

  lemma OwnedLasts(s: State, t: State, sid: string, session: Session)
    requires Extends(s, t) && Owned(s, sid, session)
    ensures Owned(t, sid, session)
  {
    var e :| e in s.log && Supplied(session, e);
    assert e in t.log;
  }

  lemma EventLasts(s: State, t: State, e: Event)
    requires Extends(s, t) && EventOk(s, e)
    ensures EventOk(t, e)
  {
    if Put(e).Some? {
      OwnedLasts(s, t, Put(e).value.0, Put(e).value.1);
    }
    if e.HandedOut? {
      var g :| g in s.log && UsesGrant(e, g);
      assert g in t.log;
    }
  }

  /**
   A request that moves on keeps the invariant when each session value it stores or holds, and each event it
   records, is accounted for.
   */
  lemma MoveKeepsSessions(s: State, t: State, id: nat, task: Option<Task>, events: seq<Event>)
    requires SessionsOk(s) && Moves(s, t, id, task, events) && Extends(s, t)
    requires forall sid | sid in t.sessions ::
               (sid in s.sessions && t.sessions[sid] == s.sessions[sid]) || Owned(t, sid, t.sessions[sid].data)
    requires task.Some? && Held(task.value).Some? ==> Owned(t, Held(task.value).value.0, Held(task.value).value.1)
    requires forall e | e in events :: EventOk(t, e)
    ensures SessionsOk(t)
  {
    forall sid | sid in t.sessions ensures Owned(t, sid, t.sessions[sid].data) {
      if sid in s.sessions && t.sessions[sid] == s.sessions[sid] { OwnedLasts(s, t, sid, s.sessions[sid].data); }
    }
    forall i | i in t.tasks && Held(t.tasks[i]).Some?
      ensures Owned(t, Held(t.tasks[i]).value.0, Held(t.tasks[i]).value.1)
    {
      if i != id { OwnedLasts(s, t, Held(s.tasks[i]).value.0, Held(s.tasks[i]).value.1); }
    }
    forall e | e in t.log ensures EventOk(t, e) {
      if e in s.log { EventLasts(s, t, e); } else { assert e in events; }
    }
  }

  /** A request that holds and records no session value, and stores none. */
  lemma PlainMove(s: State, t: State, id: nat, task: Option<Task>, events: seq<Event>)
    requires SessionsOk(s) && Moves(s, t, id, task, events) && t.owners == s.owners
    requires forall sid | sid in t.sessions :: sid in s.sessions && t.sessions[sid] == s.sessions[sid]
    requires task.Some? ==> Held(task.value).None?
    requires forall e | e in events :: Put(e).None? && !e.Answered? && !e.HandedOut?
    ensures SessionsOk(t)
  {
    MoveKeepsSessions(s, t, id, task, events);
  }

  lemma TokensSupply(session: Session, tokens: Tokens, now: int)
    ensures Supplied(ApplyTokens(session, tokens, now), Answered(tokens, now))
    ensures IdentityOf(ApplyTokens(session, tokens, now)) == IdentityOf(session)
  {}

  /** A request applies a token response: to a session it builds, or to the one in its hands. */
  lemma GrantKeepsSessions(s: State, t: State, id: nat, task: Task, sid: string, session: Session, events: seq<Event>,
                           grant: Event)
    requires SessionsOk(s) && Moves(s, t, id, Some(task), events) && Extends(s, t) && t.sessions == s.sessions
    requires Held(task) == Some((sid, session)) && sid in t.owners && t.owners[sid] == IdentityOf(session)
    requires grant.Answered? && grant.at == s.now && Supplied(session, grant) && grant in events
    requires forall e | e in events :: e == grant || e.Exchanged?
    ensures SessionsOk(t)
  {
    assert grant in t.log && Owned(t, sid, session);
    MoveKeepsSessions(s, t, id, Some(task), events);
  }

  lemma RedeemKeepsSessions(c: Config, s: State, step: Step)
    requires SessionsOk(s) && step.Redeem? && Enabled(c, s, step)
    ensures SessionsOk(After(c, s, step))
  {
    var t, was := After(c, s, step), s.tasks[step.id];
    var task, events := RedeemMoves(c, s, step);
    if step.reply.None? {
      PlainMove(s, t, step.id, task, events);
    } else {
      var tokens := step.reply.value;
      var bare := Session(was.flow.key, "", 0, tokens.refreshToken, c.subject(tokens.accessToken), step.csrf,
        tokens.capabilities);
      TokensSupply(bare, tokens, s.now);
      GrantKeepsSessions(s, t, step.id, task.value, step.sid, task.value.session, events, Answered(tokens, s.now));
    }
  }

  /** What a request holds is owned, before its step and after it. */
  lemma HeldIsOwned(s: State, t: State, id: nat, sid: string, session: Session)
    requires SessionsOk(s) && Extends(s, t) && id in s.tasks && Held(s.tasks[id]) == Some((sid, session))
    ensures Owned(s, sid, session) && Owned(t, sid, session)
  {
    OwnedLasts(s, t, sid, session);
  }

  lemma RenewKeepsSessions(c: Config, s: State, step: Step)
    requires SessionsOk(s) && step.Renew? && Enabled(c, s, step)
    ensures SessionsOk(After(c, s, step))
  {
    var t, was := After(c, s, step), s.tasks[step.id];
    RenewMoves(c, s, step);
    var session := ApplyTokens(was.session, step.tokens, s.now);
    TokensSupply(was.session, step.tokens, s.now);
    HeldIsOwned(s, t, step.id, was.sid, was.session);
    GrantKeepsSessions(s, t, step.id, Storing(was.sid, session, Spent(was.work)), was.sid, session,
      [Answered(step.tokens, s.now)], Answered(step.tokens, s.now));
  }

  lemma HandOutKeepsSessions(c: Config, s: State, step: Step)
    requires SessionsOk(s) && step.HandOut? && Enabled(c, s, step)
    ensures SessionsOk(After(c, s, step))
  {
    var t, was := After(c, s, step), s.tasks[step.id];
    HandOutMoves(c, s, step);
    HeldIsOwned(s, t, step.id, was.sid, was.session);
    HandingOutIsEarly(s, t, was.sid, was.session);
    MoveKeepsSessions(s, t, step.id, Some(Serving(was.sid, was.session, Spent(was.work))),
      [HandedOut(was.sid, was.session.accessToken, s.now)]);
  }

  lemma HandingOutIsEarly(s: State, t: State, sid: string, session: Session)
    requires SessionsOk(s) && Extends(s, t) && Owned(s, sid, session) && Reusable(session, s.now)
    ensures EventOk(t, HandedOut(sid, session.accessToken, s.now))
  {
    var g :| g in s.log && Supplied(session, g);
    assert EventOk(s, g);
    ReuseIsEarly(session, g.at, s.now, g.tokens.expiresIn);
    assert g in t.log && UsesGrant(HandedOut(sid, session.accessToken, s.now), g);
  }

  /** Storing the session value in hand. */
  lemma StoringKeepsSessions(s: State, t: State, id: nat, task: Option<Task>, e: Event, sid: string, session: Session,
                             expires: int)
    requires SessionsOk(s) && Moves(s, t, id, task, [e]) && t.owners == s.owners
    requires t.sessions == s.sessions[sid := Entry(session, expires)]
    requires id in s.tasks && Held(s.tasks[id]) == Some((sid, session)) && Put(e) == Some((sid, session))
    requires task.Some? ==> Held(task.value) == Some((sid, session))
    ensures SessionsOk(t)
  {
    HeldIsOwned(s, t, id, sid, session);
    MoveKeepsSessions(s, t, id, task, [e]);
  }

  lemma OpenKeepsSessions(c: Config, s: State, step: Step)
    requires SessionsOk(s) && step.Open? && Enabled(c, s, step)
    ensures SessionsOk(After(c, s, step))
  {
    var t, was := After(c, s, step), s.tasks[step.id];
    OpenMoves(c, s, step);
    var e := SessionOpened(was.state, was.sid, was.session);
    StoringKeepsSessions(s, t, step.id, None, e, was.sid, was.session, s.now + c.sessionTTL);
  }

  lemma SaveKeepsSessions(c: Config, s: State, step: Step)
    requires SessionsOk(s) && step.Save? && Enabled(c, s, step)
    ensures SessionsOk(After(c, s, step))
  {
    var t, was := After(c, s, step), s.tasks[step.id];
    SaveMoves(c, s, step);
    var task, e := Serving(was.sid, was.session, was.work), SessionSaved(was.sid, was.session);
    StoringKeepsSessions(s, t, step.id, Some(task), e, was.sid, was.session, s.now + c.sessionTTL);
  }

  lemma RequestKeepsSessions(c: Config, s: State, step: Step)
    requires SessionsOk(s) && step.Request? && Enabled(c, s, step)
    ensures SessionsOk(After(c, s, step))
  {
    var t := After(c, s, step);
    RequestMoves(c, s, step);
    if step.sid in s.sessions {
      OwnedLasts(s, t, step.sid, s.sessions[step.sid].data);
    }
    MoveKeepsSessions(s, t, step.id,
      Some(Resolving(step.sid, Lookup(s.sessions, step.sid), step.verb, step.header, step.work)), []);
  }

  lemma AdmitKeepsSessions(c: Config, s: State, step: Step)
    requires SessionsOk(s) && step.Admit? && Enabled(c, s, step)
    ensures SessionsOk(After(c, s, step))
  {
    var t, was := After(c, s, step), s.tasks[step.id];
    var task := AdmitMoves(c, s, step);
    if task.Some? {
      HeldIsOwned(s, t, step.id, was.sid, was.found.value.data);
    }
    MoveKeepsSessions(s, t, step.id, task, []);
  }

  lemma SignInStepKeepsSessions(c: Config, s: State, step: Step)
    requires SessionsOk(s) && (step.Start? || step.Answer? || step.Land? || step.Check?) && Enabled(c, s, step)
    ensures SessionsOk(After(c, s, step))
  {
    var t, id := After(c, s, step), step.id;
    match step
    case Start(_, browser, sent, random, flow, state) =>
      StartMoves(c, s, step);
      var binding := BindBrowser(sent, random);
      PlainMove(s, t, id, Some(Starting(browser, state, binding)), [Started(state, binding, flow, s.now)]);
    case Answer(_) =>
      AnswerMoves(c, s, step);
      PlainMove(s, t, id, None, [Delivered(s.tasks[id].state, s.tasks[id].browser)]);
    case Land(_, r) =>
      if Gate(r).Ok? {
        var events := LandMoves(c, s, step);
        PlainMove(s, t, id, Some(Taking(r.state, r.code, Lookup(s.flows, ParkingKey(c, r.state, Gate(r).value)))),
          events);
      }
    case Check(_) =>
      var task, events := CheckMoves(c, s, step);
      PlainMove(s, t, id, task, events);
  }

  lemma EndKeepsSessions(c: Config, s: State, step: Step)
    requires SessionsOk(s) && (step.Tick? || step.Logout? || step.Drop?) && Enabled(c, s, step)
    ensures SessionsOk(After(c, s, step))
  {
    var t := After(c, s, step);
    match step
    case Tick(elapsed) => TimeKeepsSessions(s, t);
    case Logout(id) =>
      LogoutMoves(c, s, step);
      PlainMove(s, t, id, None, []);
    case Drop(id) =>
      DropMoves(c, s, step);
      PlainMove(s, t, id, None, []);
  }

  lemma TimeKeepsSessions(s: State, t: State)
    requires SessionsOk(s) && s.now <= t.now && t == s.(now := t.now)
    ensures SessionsOk(t)
  {
    forall e | e in t.log ensures EventOk(t, e) { EventLasts(s, t, e); }
    forall sid | sid in t.sessions
      ensures Owned(t, sid, t.sessions[sid].data)
    {
      OwnedLasts(s, t, sid, s.sessions[sid].data);
    }
    forall i | i in t.tasks && Held(t.tasks[i]).Some?
      ensures Owned(t, Held(t.tasks[i]).value.0, Held(t.tasks[i]).value.1)
    {
      OwnedLasts(s, t, Held(s.tasks[i]).value.0, Held(s.tasks[i]).value.1);
    }
  }

  lemma StepKeepsSessions(c: Config, s: State, step: Step)
    requires SessionsOk(s) && Enabled(c, s, step)
    ensures SessionsOk(After(c, s, step))
  {
    match step
    case Start(_, _, _, _, _, _) => SignInStepKeepsSessions(c, s, step);
    case Answer(_) => SignInStepKeepsSessions(c, s, step);
    case Land(_, _) => SignInStepKeepsSessions(c, s, step);
    case Check(_) => SignInStepKeepsSessions(c, s, step);
    case Redeem(_, _, _, _) => RedeemKeepsSessions(c, s, step);
    case Open(_) => OpenKeepsSessions(c, s, step);
    case Request(_, _, _, _, _) => RequestKeepsSessions(c, s, step);
    case Admit(_) => AdmitKeepsSessions(c, s, step);
    case HandOut(_) => HandOutKeepsSessions(c, s, step);
    case Renew(_, _) => RenewKeepsSessions(c, s, step);
    case Save(_) => SaveKeepsSessions(c, s, step);
    case _ => EndKeepsSessions(c, s, step);
  }
}
