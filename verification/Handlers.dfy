/**
 The request handlers of routes/session.go and routes/middleware.go as they run on the store, each from its first
 store operation to its last. Every handler takes exactly the steps the system interleaves: left alone, it leads
 the system from the state that mirrors the store before it to one that mirrors the store after it.
 */
module Handlers {
  import opened Common
  import opened FlowKey
  import opened Sessions
  import opened SessionStore
  import opened SignIn
  import opened SignInRuns
  import MethodNames

  /** The system's state shows what the store holds. */
  ghost predicate Mirrors(s: State, c: Config, store: MemoryStore)
    reads store
  {
    && store.Valid() && c.flowTTL == store.flowTTL && c.sessionTTL == store.sessionTTL
    && s.flows == store.flows && s.sessions == store.sessions
  }

  datatype Landing = Away(marker: string) | SignedIn(sid: string, csrf: string)

  /**
   Begins a sign-in; the answer is the binding to set on the browser, or nothing when the methods named are refused.
   */
  method LoginStart(store: MemoryStore, c: Config, sent: string, random: seq<Byte>, flow: Flow, state: string,
                    ghost s: State, ghost id: nat, ghost browser: nat)
      returns (binding: Option<string>, ghost steps: seq<Step>, ghost t: State)
    requires Mirrors(s, c, store) && id !in s.tasks && |random| == BINDING_BYTES
    requires BindBrowser(sent, random) in c.bindings
    requires state !in s.states && flow.started == s.now
    modifies store
    ensures binding.Some? <==> flow.acrValues == "" || MethodNames.Accepted(flow.acrValues)
    ensures binding.None? ==> steps == [] && store.flows == old(store.flows)
    ensures binding.Some? ==>
              && steps == [Start(id, browser, sent, random, flow, state)]
              && binding.value == (if BrowserBinding(sent) != "" then sent else Encode(random))
              && store.flows == old(store.flows)[Key(state, c.hash(binding.value)) := Entry(flow, s.now + c.flowTTL)]
    ensures store.sessions == old(store.sessions)
    ensures Leads(c, s, steps, t) && Mirrors(t, c, store)
  {
    steps, t := [], s;
    if flow.acrValues != "" && !MethodNames.Accepted(flow.acrValues) {
      return None, steps, t;
    }
    var b := BindBrowser(sent, random);
    store.PutFlow(Key(state, c.hash(b)), flow, flow.started);
    LeadsFurther(c, s, steps, t, Start(id, browser, sent, random, flow, state));
    steps, t := [Start(id, browser, sent, random, flow, state)],
      After(c, t, Start(id, browser, sent, random, flow, state));
    return Some(b), steps, t;
  }

  /** Takes the flow a return names: it is gone whatever the clock then says. */
  method TakeParked(store: MemoryStore, c: Config, r: Return, judged: int, ghost s: State, ghost id: nat)
      returns (flow: Option<Flow>, ghost steps: seq<Step>, ghost t: State)
    requires Mirrors(s, c, store) && id !in s.tasks && s.now <= judged && Gate(r).Ok? && Gate(r).value in c.bindings
    modifies store
    ensures var k := ParkingKey(c, r.state, Gate(r).value);
            flow == Opened(Lookup(old(store.flows), k), judged) && store.flows == old(store.flows) - {k}
              && store.sessions == old(store.sessions)
    ensures steps == [Land(id, r), Tick(judged - s.now), Check(id)] && Leads(c, s, steps, t) && Mirrors(t, c, store)
    ensures t.now == judged && t.owners == s.owners
    ensures flow.Some? ==> id in t.tasks && t.tasks[id] == Redeeming(r.state, r.code, flow.value)
  {
    var removed := store.RemoveFlow(Key(r.state, c.hash(Gate(r).value)));
    steps, t := TakeSteps(c, s, id, r, judged);
    flow := Opened(removed, judged);
  }

  lemma TakeSteps(c: Config, s: State, id: nat, r: Return, judged: int) returns (steps: seq<Step>, t: State)
    requires id !in s.tasks && s.now <= judged && Gate(r).Ok? && Gate(r).value in c.bindings
    ensures steps == [Land(id, r), Tick(judged - s.now), Check(id)] && Leads(c, s, steps, t) && t.now == judged
    ensures t.flows == s.flows - {ParkingKey(c, r.state, Gate(r).value)} && SameSessions(s, t)
    ensures var flow := Opened(Lookup(s.flows, ParkingKey(c, r.state, Gate(r).value)), judged);
            flow.Some? ==> id in t.tasks && t.tasks[id] == Redeeming(r.state, r.code, flow.value)
  {
    var land, wait := Land(id, r), Tick(judged - s.now);
    var claim := LandMoves(c, s, land);
    LeadsFurther(c, s, [], s, land);
    var landed := After(c, s, land);
    LeadsFurther(c, s, [land], landed, wait);
    var waited := After(c, landed, wait);
    var task, events := CheckMoves(c, waited, Check(id));
    LeadsFurther(c, s, [land, wait], waited, Check(id));
    steps, t := [land, wait, Check(id)], After(c, waited, Check(id));
  }

  /** Redeems the code and, if tokens come back, opens the session. */
  method EstablishSession(store: MemoryStore, c: Config, flow: Flow, reply: Option<Tokens>, sid: string, csrf: string,
                          redeemed: int, ghost s: State, ghost id: nat)
      returns (ghost steps: seq<Step>, ghost t: State)
    requires Mirrors(s, c, store) && id in s.tasks && s.tasks[id].Redeeming? && s.tasks[id].flow == flow
    requires sid !in s.owners && s.now <= redeemed
    modifies store
    ensures reply.None? ==> store.sessions == old(store.sessions)
    ensures reply.Some? ==>
              var tokens := reply.value;
              store.sessions == old(store.sessions)[sid := Entry(
                Session(flow.key, tokens.accessToken, Unix(redeemed + Lifetime(tokens.expiresIn)), tokens.refreshToken,
                  c.subject(tokens.accessToken), csrf, tokens.capabilities),
                redeemed + c.sessionTTL)]
    ensures store.flows == old(store.flows)
    ensures steps == [Tick(redeemed - s.now), Redeem(id, reply, sid, csrf)] + if reply.None? then [] else [Open(id)]
    ensures Leads(c, s, steps, t) && Mirrors(t, c, store)
  {
    if reply.Some? {
      var tokens := reply.value;
      var session :=
        Session(flow.key, "", 0, tokens.refreshToken, c.subject(tokens.accessToken), csrf, tokens.capabilities);
      store.PutSession(sid, ApplyTokens(session, tokens, redeemed), redeemed);
    }
    steps, t := RedeemSteps(c, s, id, flow, reply, sid, csrf, redeemed);
  }

  lemma RedeemSteps(c: Config, s: State, id: nat, flow: Flow, reply: Option<Tokens>, sid: string, csrf: string,
                    redeemed: int)
      returns (steps: seq<Step>, t: State)
    requires id in s.tasks && s.tasks[id].Redeeming? && s.tasks[id].flow == flow && sid !in s.owners
    requires s.now <= redeemed
    ensures steps == [Tick(redeemed - s.now), Redeem(id, reply, sid, csrf)] + if reply.None? then [] else [Open(id)]
    ensures Leads(c, s, steps, t) && t.flows == s.flows
    ensures t.sessions == if reply.None? then s.sessions
                          else s.sessions[sid :=
                            Entry(BuildSession(c, flow, reply.value, csrf, redeemed), redeemed + c.sessionTTL)]
  {
    var wait, redeem := Tick(redeemed - s.now), Redeem(id, reply, sid, csrf);
    LeadsFurther(c, s, [], s, wait);
    var waited := After(c, s, wait);
    var task, events := RedeemMoves(c, waited, redeem);
    LeadsFurther(c, s, [wait], waited, redeem);
    steps, t := [wait, redeem], After(c, waited, redeem);
    if reply.Some? {
      OpenMoves(c, t, Open(id));
      LeadsFurther(c, s, steps, t, Open(id));
      steps, t := steps + [Open(id)], After(c, t, Open(id));
    }
  }

  /**
   Lands a return. `parses` says whether the parked key can be read, `reply` what the code exchange answers; the
   flow's expiry is judged at `judged`, the tokens arrive at `redeemed`, both after the flow was removed.
   */
  method LoginCallback(store: MemoryStore, c: Config, r: Return, parses: bool, reply: Option<Tokens>, sid: string,
                       csrf: string, judged: int, redeemed: int, ghost s: State, ghost id: nat)
      returns (landing: Landing, ghost steps: seq<Step>, ghost t: State)
    requires Mirrors(s, c, store) && id !in s.tasks && sid !in s.owners && s.now <= judged <= redeemed
    requires BrowserBinding(r.sent) != "" ==> r.sent in c.bindings
    modifies store
    ensures !ProperReturn(r) ==> store.flows == old(store.flows) && store.sessions == old(store.sessions) && steps == []
    ensures !r.issuerNamed ==> landing == Away("login_failed")
    ensures r.issuerNamed && r.error == "access_denied" ==> landing == Away("cancelled")
    ensures r.issuerNamed && r.error != "" && r.error != "access_denied" ==> landing == Away("idp_error")
    ensures r.issuerNamed && r.error == "" && (r.code == "" || r.state == "") ==> landing == Away("missing_code")
    ensures r.issuerNamed && r.error == "" && r.code != "" && r.state != "" && BrowserBinding(r.sent) == "" ==>
              landing == Away("expired")
    ensures ProperReturn(r) ==>
              var k := Key(r.state, c.hash(r.sent));
              var flow := Opened(Lookup(old(store.flows), k), judged);
              && store.flows == old(store.flows) - {k}
              && landing == (if flow.None? then Away("expired") else if !parses then Away("bad_state")
                             else if reply.None? then Away("login_failed") else SignedIn(sid, csrf))
              && (landing.SignedIn? ==>
                    var tokens := reply.value;
                    store.sessions == old(store.sessions)[sid := Entry(
                      Session(flow.value.key, tokens.accessToken, Unix(redeemed + Lifetime(tokens.expiresIn)),
                        tokens.refreshToken, c.subject(tokens.accessToken), csrf, tokens.capabilities),
                      redeemed + c.sessionTTL)])
    ensures landing.Away? ==> store.sessions == old(store.sessions)
    ensures Leads(c, s, steps, t) && Mirrors(t, c, store)
  {
    steps, t := [], s;
    if !r.issuerNamed {
      return Away("login_failed"), steps, t;
    }
    if r.error != "" {
      var marker := "idp_error";
      if r.error == "access_denied" {
        marker := "cancelled";
      }
      return Away(marker), steps, t;
    }
    if r.code == "" || r.state == "" {
      return Away("missing_code"), steps, t;
    }
    if BrowserBinding(r.sent) == "" {
      return Away("expired"), steps, t;
    }
    var flow, taking, taken := TakeParked(store, c, r, judged, s, id);
    if flow.None? {
      return Away("expired"), taking, taken;
    }
    if !parses {
      return Away("bad_state"), taking, taken;
    }
    var opening, end := EstablishSession(store, c, flow.value, reply, sid, csrf, redeemed, taken, id);
    LeadsOn(c, s, taking, taken, opening, end);
    landing := if reply.None? then Away("login_failed") else SignedIn(sid, csrf);
    steps, t := taking + opening, end;
  }

  datatype Resolution = Allowed(session: Session) | Unauthorized | Forbidden

  /**
   Resolves the session cookie of a request for some route's work: no cookie is refused unasked; a session goes to the
   handler only while it lives and, on a state-changing request, only with its own anti-forgery token.
   */
  method RequireSession(store: MemoryStore, c: Config, sid: string, verb: string, header: string, judged: int,
                        ghost work: Work, ghost s: State, ghost id: nat)
      returns (r: Resolution, ghost steps: seq<Step>, ghost t: State)
    requires Mirrors(s, c, store) && id !in s.tasks && s.now <= judged && Routed(verb, work)
    ensures r == (var found := Opened(Lookup(store.sessions, sid), judged);
                  if sid == "" || found.None? then Unauthorized
                  else if || verb == "GET" || verb == "HEAD" || verb == "OPTIONS"
                          || (found.value.csrf != "" && header == found.value.csrf) then Allowed(found.value)
                  else Forbidden)
    ensures steps == if sid == "" then [] else [Request(id, sid, verb, header, work), Tick(judged - s.now), Admit(id)]
    ensures r.Allowed? ==> id in t.tasks && t.tasks[id] == Serving(sid, r.session, work)
    ensures !r.Allowed? ==> id !in t.tasks
    ensures Leads(c, s, steps, t) && Mirrors(t, c, store)
  {
    steps, t := [], s;
    if sid == "" {
      return Unauthorized, steps, t;
    }
    var found := store.GetSession(sid, judged);
    steps, t := AdmitSteps(c, s, id, sid, verb, header, work, judged);
    if found.None? {
      return Unauthorized, steps, t;
    }
    if StateChanging(verb) {
      if found.value.csrf == "" || header != found.value.csrf {
        return Forbidden, steps, t;
      }
    }
    return Allowed(found.value), steps, t;
  }

  /** The steps of a request that resolves its session with nothing in between. */
  lemma AdmitSteps(c: Config, s: State, id: nat, sid: string, verb: string, header: string, work: Work, judged: int)
      returns (steps: seq<Step>, t: State)
    requires id !in s.tasks && s.now <= judged && Routed(verb, work)
    ensures steps == [Request(id, sid, verb, header, work), Tick(judged - s.now), Admit(id)] && Leads(c, s, steps, t)
    ensures t.flows == s.flows && SameSessions(s, t)
    ensures var found := Opened(Lookup(s.sessions, sid), judged);
            if found.None? || !Admits(found.value, verb, header) then id !in t.tasks
            else id in t.tasks && t.tasks[id] == Serving(sid, found.value, work)
  {
    var ask, wait := Request(id, sid, verb, header, work), Tick(judged - s.now);
    RequestMoves(c, s, ask);
    LeadsFurther(c, s, [], s, ask);
    var asked := After(c, s, ask);
    LeadsFurther(c, s, [ask], asked, wait);
    var waited := After(c, asked, wait);
    var task := AdmitMoves(c, waited, Admit(id));
    LeadsFurther(c, s, [ask, wait], waited, Admit(id));
    steps, t := [ask, wait, Admit(id)], After(c, waited, Admit(id));
  }

  /** Applies a token response and stores the session. */
  method StoreRenewed(store: MemoryStore, c: Config, sid: string, session: Session, tokens: Tokens, now: int,
                      ghost work: Work, ghost s: State, ghost id: nat)
      returns (renewed: Session, ghost t: State)
    requires Mirrors(s, c, store) && id in s.tasks && s.tasks[id] == Serving(sid, session, work) && s.now <= now
    requires Renews(work, session, now)
    modifies store
    ensures renewed == ApplyTokens(session, tokens, now) && store.flows == old(store.flows)
    ensures store.sessions == old(store.sessions)[sid := Entry(renewed, now + c.sessionTTL)]
    ensures Leads(c, s, [Tick(now - s.now), Renew(id, tokens), Save(id)], t) && Mirrors(t, c, store)
    ensures id in t.tasks && t.tasks[id] == Serving(sid, renewed, Spent(work))
  {
    renewed := ApplyTokens(session, tokens, now);
    store.PutSession(sid, renewed, now);
    t := RenewSteps(c, s, id, sid, session, tokens, work, now);
  }

  lemma RenewSteps(c: Config, s: State, id: nat, sid: string, session: Session, tokens: Tokens, work: Work, now: int)
      returns (t: State)
    requires id in s.tasks && s.tasks[id] == Serving(sid, session, work) && s.now <= now && Renews(work, session, now)
    ensures Leads(c, s, [Tick(now - s.now), Renew(id, tokens), Save(id)], t) && t.flows == s.flows
    ensures t.sessions == s.sessions[sid := Entry(ApplyTokens(session, tokens, now), now + c.sessionTTL)]
    ensures id in t.tasks && t.tasks[id] == Serving(sid, ApplyTokens(session, tokens, now), Spent(work))
  {
    var wait, renew := Tick(now - s.now), Renew(id, tokens);
    LeadsFurther(c, s, [], s, wait);
    var waited := After(c, s, wait);
    RenewMoves(c, waited, renew);
    LeadsFurther(c, s, [wait], waited, renew);
    var renewed := After(c, waited, renew);
    SaveMoves(c, renewed, Save(id));
    LeadsFurther(c, s, [wait, renew], renewed, Save(id));
    t := After(c, renewed, Save(id));
  }

  /** A request that gets no token makes no more store operations. */
  lemma DropSteps(c: Config, s: State, id: nat) returns (t: State)
    requires id in s.tasks
    ensures Leads(c, s, [Drop(id)], t) && t.flows == s.flows && SameSessions(s, t) && id !in t.tasks
  {
    DropMoves(c, s, Drop(id));
    LeadsFurther(c, s, [], s, Drop(id));
    t := After(c, s, Drop(id));
  }

  /**
   Re-issues the access token and keeps the session. `parses` says whether the session's key can be read, `reply` what
   the Auth Service answers, at `now`. A refusal changes nothing and ends the request.
   */
  method Refresh(store: MemoryStore, c: Config, sid: string, session: Session, parses: bool, reply: Option<Tokens>,
                 now: int, ghost s: State, ghost id: nat)
      returns (renewed: Option<Session>, ghost steps: seq<Step>, ghost t: State)
    requires Mirrors(s, c, store) && id in s.tasks && s.tasks[id] == Serving(sid, session, Refreshing) && s.now <= now
    modifies store
    ensures renewed.Some? <==> parses && reply.Some?
    ensures renewed.None? ==> store.sessions == old(store.sessions) && steps == [Drop(id)]
    ensures renewed.Some? ==>
              var session', tokens := renewed.value, reply.value;
              && session'.accessToken == tokens.accessToken && IdentityOf(session') == IdentityOf(session)
              && session'.refreshToken ==
                   (if tokens.refreshToken != "" then tokens.refreshToken else session.refreshToken)
              && session'.accessExpiry == Expiry(now, tokens.expiresIn)
              && store.sessions == old(store.sessions)[sid := Entry(session', now + c.sessionTTL)]
              && steps == [Tick(now - s.now), Renew(id, tokens), Save(id)]
              && id in t.tasks && t.tasks[id] == Serving(sid, session', Asking(0))
    ensures store.flows == old(store.flows) && Leads(c, s, steps, t) && Mirrors(t, c, store)
  {
    if !parses || reply.None? {
      t := DropSteps(c, s, id);
      return None, [Drop(id)], t;
    }
    var session', end := StoreRenewed(store, c, sid, session, reply.value, now, Refreshing, s, id);
    return Some(session'), [Tick(now - s.now), Renew(id, reply.value), Save(id)], end;
  }

  /**
   The access token to act with, for a request that may ask `left` times: the session's own while it may be reused, else
   a new one; the Auth Service is asked only then, and `reply` is its answer at `later`. Asking leaves one question
   less.
   */
  method FreshToken(store: MemoryStore, c: Config, sid: string, session: Session, parses: bool, reply: Option<Tokens>,
                    now: int, later: int, ghost left: nat, ghost s: State, ghost id: nat)
      returns (token: Option<string>, kept: Session, ghost steps: seq<Step>, ghost t: State)
    requires Mirrors(s, c, store) && id in s.tasks && s.tasks[id] == Serving(sid, session, Asking(left)) && left > 0
    requires s.now == now <= later
    modifies store
    ensures token == (if Reusable(session, now) then Some(session.accessToken)
                      else if parses && reply.Some? then Some(reply.value.accessToken) else None)
    ensures steps == (if Reusable(session, now) then [HandOut(id)]
                      else if token.Some? then [Tick(later - now), Renew(id, reply.value), Save(id)] else [Drop(id)])
    ensures store.sessions == if Reusable(session, now) || token.None? then old(store.sessions)
                              else old(store.sessions)[sid := Entry(kept, later + c.sessionTTL)]
    ensures kept == if Reusable(session, now) || token.None? then session else ApplyTokens(session, reply.value, later)
    ensures token.Some? ==> id in t.tasks && t.tasks[id] == Serving(sid, kept, Asking(left - 1))
    ensures token.None? ==> id !in t.tasks
    ensures store.flows == old(store.flows) && Leads(c, s, steps, t) && Mirrors(t, c, store)
  {
    kept := session;
    if session.accessToken != "" && Unix(now + REFRESH_LEEWAY) < session.accessExpiry {
      LeadsFurther(c, s, [], s, HandOut(id));
      HandOutMoves(c, s, HandOut(id));
      return Some(session.accessToken), kept, [HandOut(id)], After(c, s, HandOut(id));
    }
    if !parses || reply.None? {
      t := DropSteps(c, s, id);
      return None, kept, [Drop(id)], t;
    }
    ReuseStaysOver(session, now, later);
    kept, t := StoreRenewed(store, c, sid, session, reply.value, later, Asking(left), s, id);
    steps := [Tick(later - now), Renew(id, reply.value), Save(id)];
    token := Some(kept.accessToken);
  }

  method Logout(store: MemoryStore, c: Config, sid: string, session: Session, ghost s: State, ghost id: nat)
      returns (ghost t: State)
    requires Mirrors(s, c, store) && id in s.tasks && s.tasks[id] == Serving(sid, session, Leaving)
    modifies store
    ensures store.sessions == old(store.sessions) - {sid} && store.flows == old(store.flows)
    ensures Leads(c, s, [Step.Logout(id)], t) && Mirrors(t, c, store) && id !in t.tasks
  {
    store.DeleteSession(sid);
    LogoutMoves(c, s, Step.Logout(id));
    LeadsFurther(c, s, [], s, Step.Logout(id));
    t := After(c, s, Step.Logout(id));
  }
}
