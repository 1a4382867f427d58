/** The guarantees of a sign-in and of a session, over every run. */
module SignInRuns {
  import opened Common
  import opened FlowKey
  import opened Sessions
  import opened SessionStore
  import opened SignIn
  import opened SignInProofs
  import opened SessionProofs

  // The browser's cookie outlives the flows parked under it.

  ghost predicate DeliveryOk(c: Config, s: State, e: Event) {
    e.Delivered? ==>
      var story := Story(s.log, e.state);
      && story != [] && story[0].Started? && e.browser in s.jars
      && (s.jars[e.browser].binding == story[0].binding ==> story[0].at + MaxAge(c) <= s.jars[e.browser].expires)
  }

  ghost predicate DeliveriesOk(c: Config, s: State) {
    forall e | e in s.log :: DeliveryOk(c, s, e)
  }

  lemma {:induction false} StoryExtends(log: seq<Event>, more: seq<Event>, state: string)
    requires log <= more
    ensures Story(log, state) <= Story(more, state)
  {
    if |log| < |more| {
      StoryExtends(log, more[..|more| - 1], state);
    } else {
      assert log == more;
    }
  }

  lemma DeliveryLasts(c: Config, s: State, t: State, e: Event)
    requires DeliveryOk(c, s, e) && s.log <= t.log
    requires e.Delivered? ==> e.browser in t.jars
    requires e.Delivered? && t.jars[e.browser].binding == Story(s.log, e.state)[0].binding ==>
               Story(s.log, e.state)[0].at + MaxAge(c) <= t.jars[e.browser].expires
    ensures DeliveryOk(c, t, e)
  {
    if e.Delivered? {
      StoryExtends(s.log, t.log, e.state);
    }
  }

  lemma OldDeliveryLasts(c: Config, s: State, t: State, e: Event)
    requires StoriesOk(c, s) && DeliveryOk(c, s, e) && s.log <= t.log && t.jars == s.jars
    ensures DeliveryOk(c, t, e)
  {
    if e.Delivered? { assert StoryOk(c, s, e.state); }
    DeliveryLasts(c, s, t, e);
  }

  /** An answer renews the cookie of its browser: what that browser was told of before is outlived as long as before. */
  lemma AnswerRenews(c: Config, s: State, step: Step, e: Event)
    requires StoriesOk(c, s) && step.Answer? && Enabled(c, s, step) && DeliveryOk(c, s, e)
    ensures DeliveryOk(c, After(c, s, step), e)
  {
    AnswerMoves(c, s, step);
    if e.Delivered? { assert StoryOk(c, s, e.state); }
    DeliveryLasts(c, s, After(c, s, step), e);
  }

  lemma AnswerDelivers(c: Config, s: State, step: Step)
    requires StoriesOk(c, s) && step.Answer? && Enabled(c, s, step)
    ensures DeliveryOk(c, After(c, s, step), Delivered(s.tasks[step.id].state, s.tasks[step.id].browser))
  {
    AnswerMoves(c, s, step);
    assert TaskStoryOk(c, s, step.id) && StoryOk(c, s, s.tasks[step.id].state);
    StoryExtends(s.log, After(c, s, step).log, s.tasks[step.id].state);
  }

  lemma AnswerKeepsDeliveries(c: Config, s: State, step: Step)
    requires StoriesOk(c, s) && DeliveriesOk(c, s) && step.Answer? && Enabled(c, s, step)
    ensures DeliveriesOk(c, After(c, s, step))
  {
    AnswerMoves(c, s, step);
    AnswerDelivers(c, s, step);
    forall e | e in After(c, s, step).log
      ensures DeliveryOk(c, After(c, s, step), e)
    {
      if e in s.log { AnswerRenews(c, s, step, e); }
    }
  }

  lemma StepKeepsDeliveries(c: Config, s: State, step: Step)
    requires StoriesOk(c, s) && DeliveriesOk(c, s) && Enabled(c, s, step)
    ensures DeliveriesOk(c, After(c, s, step))
  {
    if step.Answer? {
      AnswerKeepsDeliveries(c, s, step);
    } else {
      var t := After(c, s, step);
      StepGrows(c, s, step);
      forall e | e in t.log
        ensures DeliveryOk(c, t, e)
      {
        var i :| 0 <= i < |t.log| && t.log[i] == e;
        if i < |s.log| {
          assert s.log[i] == e;
          OldDeliveryLasts(c, s, t, e);
        }
      }
    }
  }

  ghost predicate Inv(c: Config, s: State) {
    StoriesOk(c, s) && SessionsOk(s) && DeliveriesOk(c, s)
  }

  lemma {:induction false} RunKeepsInv(c: Config, steps: seq<Step>, states: seq<State>, i: nat)
    requires WellFormed(c) && Run(c, steps, states) && i < |states|
    ensures Inv(c, states[i])
  {
    if i == 0 {
      StoryOfInitial(c, states[0]);
    } else {
      RunKeepsInv(c, steps, states, i - 1);
      var s, step := states[i - 1], steps[i - 1];
      assert Takes(c, steps, states, i - 1);
      StepKeepsStories(c, s, step);
      StepKeepsSessions(c, s, step);
      StepKeepsDeliveries(c, s, step);
    }
  }

  // Stories and histories.

  lemma {:induction false} StoryPosition(log: seq<Event>, i: nat)
    requires i < |log| && InStory(log[i])
    ensures |Story(log[..i], log[i].state)| < |Story(log, log[i].state)|
    ensures Story(log, log[i].state)[|Story(log[..i], log[i].state)|] == log[i]
  {
    StoryGrows(log[..i], log[i], log[i].state);
    assert log[..i] + [log[i]] == log[..i + 1];
    StoryExtends(log[..i + 1], log, log[i].state);
  }

  lemma {:induction false} StoryEvent(log: seq<Event>, state: string, p: nat) returns (i: nat)
    requires p < |Story(log, state)|
    ensures i < |log| && InStory(log[i]) && log[i].state == state && log[i] == Story(log, state)[p]
    ensures |Story(log[..i], state)| == p
  {
    var init := log[..|log| - 1];
    if p < |Story(init, state)| {
      i := StoryEvent(init, state, p);
      assert init[..i] == log[..i];
    } else {
      i := |log| - 1;
    }
  }

  /** The step of a sign-in an event is. */
  function Kind(e: Event): nat
    requires InStory(e)
  {
    match e
    case Started(_, _, _, _) => 0
    case Claimed(_, _, _) => 1
    case Taken(_, _) => 2
    case Exchanged(_, _, _) => 3
    case SessionOpened(_, _, _) => 4
  }

  lemma StoryOrder(log: seq<Event>, i: nat, j: nat)
    requires i < j < |log| && InStory(log[i]) && InStory(log[j]) && log[i].state == log[j].state
    ensures |Story(log[..i], log[i].state)| < |Story(log[..j], log[i].state)| < |Story(log, log[i].state)|
  {
    StoryPosition(log, j);
    assert log[..j][i] == log[i] && log[..j][..i] == log[..i];
    StoryPosition(log[..j], i);
  }

  lemma ToldInOrder(story: seq<Event>, p: nat, q: nat)
    requires WellTold(story) && p < q < |story| && InStory(story[p]) && InStory(story[q])
    ensures Kind(story[p]) < Kind(story[q])
  {}

  /**
   Single use: in any run, whatever is sent and however requests interleave, a sign-in is started, claimed, taken,
   exchanged and opened at most once each, in this order.
   */
  lemma SignInIsSingleUse(c: Config, steps: seq<Step>, states: seq<State>, n: nat, i: nat, j: nat)
    requires WellFormed(c) && Run(c, steps, states) && n < |states| && i < j < |states[n].log|
    requires InStory(states[n].log[i]) && InStory(states[n].log[j]) && states[n].log[i].state == states[n].log[j].state
    ensures Kind(states[n].log[i]) < Kind(states[n].log[j])
  {
    StoryIsTold(c, steps, states, n, states[n].log[i].state);
    var log := states[n].log;
    var state := log[i].state;
    StoryPosition(log, i);
    StoryPosition(log, j);
    StoryOrder(log, i, j);
    ToldInOrder(Story(log, state), |Story(log[..i], state)|, |Story(log[..j], state)|);
  }

  lemma StoryIsTold(c: Config, steps: seq<Step>, states: seq<State>, n: nat, state: string)
    requires WellFormed(c) && Run(c, steps, states) && n < |states|
    ensures WellTold(Story(states[n].log, state))
  {
    RunKeepsInv(c, steps, states, n);
    assert StoryOk(c, states[n], state);
  }

  /** The positions in the history of the events before the last of a well-told story. */
  lemma StoryPositions(log: seq<Event>, state: string)
      returns (start: nat, claim: nat, taken: nat, exchange: nat)
    requires |Story(log, state)| == 5
    ensures start < |log| && claim < |log| && taken < |log| && exchange < |log|
    ensures |Story(log[..start], state)| == 0 && |Story(log[..claim], state)| == 1
    ensures |Story(log[..taken], state)| == 2 && |Story(log[..exchange], state)| == 3
    ensures var story := Story(log, state);
            log[start] == story[0] && log[claim] == story[1] && log[taken] == story[2] && log[exchange] == story[3]
    ensures InStory(log[start]) && log[start].state == state && InStory(log[claim]) && log[claim].state == state
    ensures InStory(log[taken]) && log[taken].state == state && InStory(log[exchange]) && log[exchange].state == state
  {
    start := StoryEvent(log, state, 0);
    claim := StoryEvent(log, state, 1);
    taken := StoryEvent(log, state, 2);
    exchange := StoryEvent(log, state, 3);
  }

  lemma OpenedIsLast(log: seq<Event>, m: nat)
    requires m < |log| && log[m].SessionOpened? && WellTold(Story(log, log[m].state))
    ensures |Story(log, log[m].state)| == 5 && |Story(log[..m], log[m].state)| == 4
            && Story(log, log[m].state)[4] == log[m]
  {
    StoryPosition(log, m);
  }

  lemma InOrder(log: seq<Event>, state: string, start: nat, claim: nat, taken: nat, exchange: nat, m: nat)
    requires start < |log| && claim < |log| && taken < |log| && exchange < |log| && m < |log|
    requires |Story(log[..start], state)| < |Story(log[..claim], state)| < |Story(log[..taken], state)|
    requires |Story(log[..taken], state)| < |Story(log[..exchange], state)| < |Story(log[..m], state)|
    ensures start < claim < taken < exchange < m
  {
    EarlierInStory(log, state, start, claim);
    EarlierInStory(log, state, claim, taken);
    EarlierInStory(log, state, taken, exchange);
    EarlierInStory(log, state, exchange, m);
  }

  /**
   A session opened by a sign-in came all the way: its own start parked the key it carries, and the browser that
   completed it sent the binding of the one that started it.
   */
  lemma SessionIsTheStarters(c: Config, steps: seq<Step>, states: seq<State>, n: nat, m: nat)
      returns (start: nat, claim: nat, taken: nat, exchange: nat)
    requires WellFormed(c) && Run(c, steps, states) && n < |states| && m < |states[n].log|
    requires states[n].log[m].SessionOpened?
    ensures start < claim < taken < exchange < m
    ensures var log := states[n].log;
            && log[start].Started? && log[claim].Claimed? && log[taken].Taken? && log[exchange].Exchanged?
            && log[start].state == log[claim].state == log[taken].state == log[exchange].state == log[m].state
            && log[claim].sent == log[start].binding
            && log[taken].flow == log[start].flow && log[exchange].flow == log[start].flow
            && log[m].session.key == log[start].flow.key
  {
    StoryIsTold(c, steps, states, n, states[n].log[m].state);
    start, claim, taken, exchange := StoryOfSession(states[n].log, m);
  }

  lemma StoryOfSession(log: seq<Event>, m: nat) returns (start: nat, claim: nat, taken: nat, exchange: nat)
    requires m < |log| && log[m].SessionOpened? && WellTold(Story(log, log[m].state))
    ensures start < claim < taken < exchange < m
    ensures && log[start].Started? && log[claim].Claimed? && log[taken].Taken? && log[exchange].Exchanged?
            && log[start].state == log[claim].state == log[taken].state == log[exchange].state == log[m].state
            && log[claim].sent == log[start].binding
            && log[taken].flow == log[start].flow && log[exchange].flow == log[start].flow
            && log[m].session.key == log[start].flow.key
  {
    OpenedIsLast(log, m);
    start, claim, taken, exchange := StoryPositions(log, log[m].state);
    InOrder(log, log[m].state, start, claim, taken, exchange, m);
  }

  lemma EarlierInStory(log: seq<Event>, state: string, i: nat, j: nat)
    requires i < |log| && j < |log| && |Story(log[..i], state)| < |Story(log[..j], state)|
    ensures i < j
  {
    if j <= i {
      assert log[..j] <= log[..i];
      StoryExtends(log[..j], log[..i], state);
    }
  }

  // Which returns claim a sign-in.

  /**
   The return names the issuer, brings no error but a code and a state, and sends a binding this service could have
   set.
   */
  predicate ProperReturn(r: Return) {
    r.issuerNamed && r.error == "" && r.code != "" && r.state != "" && BrowserBinding(r.sent) != ""
  }

  lemma NewClaim(c: Config, s: State, step: Step, i: nat)
    requires Enabled(c, s, step) && |s.log| <= i < |After(c, s, step).log| && After(c, s, step).log[i].Claimed?
    ensures step.Land? && ProperReturn(step.return_)
    ensures After(c, s, step).log[i] == Claimed(step.return_.state, step.id, step.return_.sent)
  {
    match step
    case Start(_, _, _, _, _, _) => StartMoves(c, s, step);
    case Answer(_) => AnswerMoves(c, s, step);
    case Land(_, r) => if Gate(r).Ok? { var events := LandMoves(c, s, step); }
    case Check(_) => var task, events := CheckMoves(c, s, step);
    case Redeem(_, _, _, _) => var task, events := RedeemMoves(c, s, step);
    case Open(_) => OpenMoves(c, s, step);
    case Admit(_) => var task := AdmitMoves(c, s, step);
    case HandOut(_) => HandOutMoves(c, s, step);
    case Renew(_, _) => RenewMoves(c, s, step);
    case Save(_) => SaveMoves(c, s, step);
    case _ =>
  }

  /**
   Every claim of a sign-in in a run was made by a return that passed every check, under its own state and binding.
   */
  lemma {:induction false} ClaimCameFromReturn(c: Config, steps: seq<Step>, states: seq<State>, n: nat, i: nat)
      returns (m: nat)
    requires Run(c, steps, states) && n < |states| && i < |states[n].log| && states[n].log[i].Claimed?
    ensures m < n && steps[m].Land?
    ensures var r := steps[m].return_;
            && r.issuerNamed && r.error == "" && r.code != "" && r.state != "" && BrowserBinding(r.sent) == r.sent
            && states[n].log[i] == Claimed(r.state, steps[m].id, r.sent)
  {
    assert Takes(c, steps, states, n - 1);
    if i < |states[n - 1].log| {
      StepGrows(c, states[n - 1], steps[n - 1]);
      m := ClaimCameFromReturn(c, steps, states, n - 1, i);
    } else {
      m := n - 1;
      NewClaim(c, states[m], steps[m], i);
    }
  }

  // Sign-ins do not disturb one another.

  /** The step is a return that passes its checks under this state and this binding. */
  predicate OwnReturn(step: Step, state: string, binding: string) {
    step.Land? && Gate(step.return_) == Ok(binding) && step.return_.state == state
  }

  lemma OtherReturnLeavesFlow(c: Config, s: State, step: Step, state: string, binding: string)
    requires WellFormed(c) && step.Land? && Enabled(c, s, step) && binding in c.bindings
    requires ParkingKey(c, state, binding) in s.flows && !OwnReturn(step, state, binding)
    ensures Lookup(After(c, s, step).flows, ParkingKey(c, state, binding)) ==
            Some(s.flows[ParkingKey(c, state, binding)])
  {
    var r := step.return_;
    if Gate(r).Ok? && ParkingKey(c, r.state, Gate(r).value) == ParkingKey(c, state, binding) {
      SameKeySameSignIn(c, r.state, Gate(r).value, state, binding);
    }
  }

  lemma OtherStartLeavesFlow(c: Config, s: State, step: Step, state: string, binding: string)
    requires WellFormed(c) && StoriesOk(c, s) && step.Start? && Enabled(c, s, step) && binding in c.bindings
    requires ParkingKey(c, state, binding) in s.flows
    ensures Lookup(After(c, s, step).flows, ParkingKey(c, state, binding)) ==
            Some(s.flows[ParkingKey(c, state, binding)])
  {
    FoundIsOwn(c, s, state, binding);
    assert StoryOk(c, s, state);
    if ParkingKey(c, step.state, BindBrowser(step.sent, step.random)) == ParkingKey(c, state, binding) {
      SameKeySameSignIn(c, step.state, BindBrowser(step.sent, step.random), state, binding);
    }
  }

  /** Only a return under its own state and binding moves a parked flow. */
  lemma ParkedFlowStays(c: Config, s: State, step: Step, state: string, binding: string)
    requires WellFormed(c) && StoriesOk(c, s) && Enabled(c, s, step) && binding in c.bindings
    requires ParkingKey(c, state, binding) in s.flows && !OwnReturn(step, state, binding)
    ensures Lookup(After(c, s, step).flows, ParkingKey(c, state, binding)) ==
            Some(s.flows[ParkingKey(c, state, binding)])
  {
    if step.Land? {
      OtherReturnLeavesFlow(c, s, step, state, binding);
    } else if step.Start? {
      OtherStartLeavesFlow(c, s, step, state, binding);
    } else {
      StepGrows(c, s, step);
    }
  }

  lemma ParkedFlowStaysInRun(c: Config, steps: seq<Step>, states: seq<State>, m: nat, state: string, binding: string)
    requires WellFormed(c) && Run(c, steps, states) && m < |steps| && binding in c.bindings
    requires ParkingKey(c, state, binding) in states[m].flows && !OwnReturn(steps[m], state, binding)
    ensures Lookup(states[m + 1].flows, ParkingKey(c, state, binding)) ==
            Some(states[m].flows[ParkingKey(c, state, binding)])
  {
    RunKeepsInv(c, steps, states, m);
    assert Takes(c, steps, states, m);
    ParkedFlowStays(c, states[m], steps[m], state, binding);
  }

  /** Over any stretch of a run without its own return, a parked flow stays as it was parked. */
  lemma {:induction false} ParkedUntilOwnReturn(c: Config, steps: seq<Step>, states: seq<State>, i: nat, j: nat,
                                                state: string, binding: string)
    requires WellFormed(c) && Run(c, steps, states) && i <= j < |states| && binding in c.bindings
    requires ParkingKey(c, state, binding) in states[i].flows
    requires forall m | i <= m < j :: !OwnReturn(steps[m], state, binding)
    ensures Lookup(states[j].flows, ParkingKey(c, state, binding)) ==
            Some(states[i].flows[ParkingKey(c, state, binding)])
    decreases j
  {
    if i < j {
      ParkedUntilOwnReturn(c, steps, states, i, j - 1, state, binding);
      ParkedFlowStaysInRun(c, steps, states, j - 1, state, binding);
    }
  }

  /**
   A return made under its own state and binding finds the flow that was parked, however much happened in between,
   and takes it if the clock allows.
   */
  lemma OwnReturnTakesTheFlow(c: Config, steps: seq<Step>, states: seq<State>, i: nat, j: nat, state: string,
                              binding: string, now: int)
    requires WellFormed(c) && Run(c, steps, states) && i <= j < |steps| && binding in c.bindings
    requires ParkingKey(c, state, binding) in states[i].flows
    requires OwnReturn(steps[j], state, binding) && forall m | i <= m < j :: !OwnReturn(steps[m], state, binding)
    ensures var e := states[i].flows[ParkingKey(c, state, binding)];
            && Lookup(states[j + 1].tasks, steps[j].id) == Some(Taking(state, steps[j].return_.code, Some(e)))
            && Opened(Some(e), now) == if now <= e.expires then Some(e.data) else None
  {
    ParkedUntilOwnReturn(c, steps, states, i, j, state, binding);
    assert Takes(c, steps, states, j);
    var events := LandMoves(c, states[j], steps[j]);
  }

  /** The binding a browser sends: its cookie's, for as long as the cookie lives. */
  function Sent(s: State, browser: nat): string {
    if browser in s.jars && s.now <= s.jars[browser].expires then s.jars[browser].binding else ""
  }

  lemma MaxAgeBound(c: Config)
    ensures 0 <= MaxAge(c) <= c.flowTTL < MaxAge(c) + SECOND
    ensures MaxAge(c) == c.flowTTL <==> c.flowTTL % SECOND == 0
  {}

  /**
   For the whole seconds of its time to live an unclaimed flow is outlived by the cookie: the browser that was told of
   it and still holds its binding sends that binding, and its return passes the checks and finds the flow live.
   */
  lemma CookieOutlivesTheFlow(c: Config, steps: seq<Step>, states: seq<State>, n: nat, e: Event, code: string)
    requires WellFormed(c) && Run(c, steps, states) && n < |states| && code != ""
    requires e.Delivered? && e in states[n].log && e.state != ""
    requires var s := states[n];
             var story := Story(s.log, e.state);
             && |story| == 1 && story[0].Started? && e.browser in s.jars
             && s.jars[e.browser].binding == story[0].binding
             && s.now <= story[0].at + c.flowTTL / SECOND * SECOND
    ensures var s := states[n];
            var start := Story(s.log, e.state)[0];
            var sent := Sent(s, e.browser);
            && sent == start.binding && Gate(Return(true, "", code, e.state, sent)) == Ok(start.binding)
            && Opened(Lookup(s.flows, ParkingKey(c, e.state, sent)), s.now) == Some(start.flow)
  {
    RunKeepsInv(c, steps, states, n);
    MaxAgeBound(c);
    assert DeliveryOk(c, states[n], e) && StoryOk(c, states[n], e.state);
  }

  // Sessions.

  /** The two session values belong to one login. */
  predicate SameLogin(a: Session, b: Session) {
    a.key == b.key && a.subject == b.subject && a.csrf == b.csrf && a.capabilities == b.capabilities
  }

  /** Every value ever stored under one session id has the same key, subject, anti-forgery token and capabilities. */
  lemma OneIdentityPerSession(c: Config, steps: seq<Step>, states: seq<State>, n: nat, a: Event, b: Event)
    requires WellFormed(c) && Run(c, steps, states) && n < |states| && a in states[n].log && b in states[n].log
    requires (a.SessionOpened? || a.SessionSaved?) && (b.SessionOpened? || b.SessionSaved?) && a.sid == b.sid
    ensures SameLogin(a.session, b.session)
  {
    RunKeepsInv(c, steps, states, n);
    assert EventOk(states[n], a) && EventOk(states[n], b);
  }

  /** What a request admitted on a session holds belongs to that login too, and so does what the store holds. */
  lemma HeldSessionsHaveTheIdentity(c: Config, steps: seq<Step>, states: seq<State>, n: nat, a: Event, id: nat)
    requires WellFormed(c) && Run(c, steps, states) && n < |states| && a in states[n].log
    requires a.SessionOpened? || a.SessionSaved?
    ensures a.sid in states[n].sessions ==> SameLogin(states[n].sessions[a.sid].data, a.session)
    ensures id in states[n].tasks ==>
              var t := states[n].tasks[id];
              && ((t.Opening? || t.Serving? || t.Storing?) && t.sid == a.sid ==> SameLogin(t.session, a.session))
              && (t.Resolving? && t.sid == a.sid && t.found.Some? ==> SameLogin(t.found.value.data, a.session))
  {
    RunKeepsInv(c, steps, states, n);
    assert EventOk(states[n], a);
    if id in states[n].tasks && Held(states[n].tasks[id]).Some? {
      assert Owned(states[n], Held(states[n].tasks[id]).value.0, Held(states[n].tasks[id]).value.1);
    }
  }

  /** A stored session's access token and expiry come from one token response. */
  lemma TokenAndExpiryTogether(c: Config, steps: seq<Step>, states: seq<State>, n: nat, a: Event)
    requires WellFormed(c) && Run(c, steps, states) && n < |states| && a in states[n].log
    requires a.SessionOpened? || a.SessionSaved?
    ensures exists g :: g in states[n].log && g.Answered?
                        && a.session.accessToken == g.tokens.accessToken
                        && a.session.accessExpiry == Unix(g.at + Lifetime(g.tokens.expiresIn))
  {
    RunKeepsInv(c, steps, states, n);
    assert EventOk(states[n], a);
  }

  /**
   A token handed out without a refresh was received less than its lifetime, as computed, minus 30 seconds before;
   down to the limit of the 64-bit product that is the lifetime the Auth Service named, or less.
   */
  lemma HandedOutTokensAreFresh(c: Config, steps: seq<Step>, states: seq<State>, n: nat, use: Event)
    requires WellFormed(c) && Run(c, steps, states) && n < |states| && use in states[n].log && use.HandedOut?
    ensures exists g :: g in states[n].log && g.Answered?
                        && use.token == g.tokens.accessToken && g.at <= use.at
                        && use.at - g.at < Lifetime(g.tokens.expiresIn) - REFRESH_LEEWAY
                        && (g.tokens.expiresIn >= -9223372036 ==>
                              g.tokens.expiresIn > 30 && WithinLeeway(g.at, use.at, g.tokens.expiresIn))
  {
    RunKeepsInv(c, steps, states, n);
    assert EventOk(states[n], use);
    var g :| g in states[n].log && UsesGrant(use, g);
    WrapDirection(g.tokens.expiresIn);
  }
}
