/** Sign-ins started in one browser (routes/cookies.go): which binding they share, and whose return finds its flow. */
module TwoTabs {
  import opened Common
  import opened FlowKey
  import opened Sessions
  import opened SessionStore
  import opened SignIn
  import opened SignInProofs
  import opened SignInRuns

  /** The browser holds this binding, and no answer on its way brings it another. */
  ghost predicate Holds(s: State, browser: nat, binding: string) {
    && browser in s.jars && s.jars[browser].binding == binding
    && forall id | id in s.tasks && s.tasks[id].Starting? && s.tasks[id].browser == browser ::
         s.tasks[id].binding == binding
  }

  /** From step `i` up to step `j` the browser sends its own cookie with every start. */
  ghost predicate SendsItsCookie(steps: seq<Step>, states: seq<State>, i: nat, j: nat, browser: nat)
    requires j <= |steps| <= |states|
  {
    forall m | i <= m < j && steps[m].Start? && steps[m].browser == browser :: steps[m].sent == Sent(states[m], browser)
  }

  /** The browser lands back under `state` with a code and its own cookie. */
  predicate Returns(step: Step, s: State, browser: nat, state: string) {
    step.Land? && step.return_.code != ""
      && step.return_ == Return(true, "", step.return_.code, state, Sent(s, browser))
  }

  lemma StepKeepsHolding(c: Config, s: State, step: Step, browser: nat, binding: string)
    requires Enabled(c, s, step) && Holds(s, browser, binding)
    requires step.Start? && step.browser == browser ==> BindBrowser(step.sent, step.random) == binding
    ensures Holds(After(c, s, step), browser, binding)
  {
    var t := After(c, s, step);
    if step.Start? {
      StartMoves(c, s, step);
    } else {
      StartsComeFromStart(c, s, step);
      if step.Answer? {
        AnswerMoves(c, s, step);
      } else {
        StepGrows(c, s, step);
      }
    }
  }

  lemma HoldingInRun(c: Config, steps: seq<Step>, states: seq<State>, m: nat, browser: nat, binding: string)
    requires Run(c, steps, states) && m < |steps| && Holds(states[m], browser, binding)
    requires BrowserBinding(binding) == binding != ""
    requires steps[m].Start? && steps[m].browser == browser ==> steps[m].sent == binding
    ensures Holds(states[m + 1], browser, binding)
  {
    assert Takes(c, steps, states, m);
    StepKeepsHolding(c, states[m], steps[m], browser, binding);
  }

  /** The browser was told, by the answer `e`, of a sign-in parked under `binding` at instant `at`. */
  ghost predicate Told(c: Config, s: State, e: Event, binding: string, at: int) {
    && e.Delivered? && e in s.log
    && var story := Story(s.log, e.state);
    story != [] && story[0].Started? && story[0].binding == binding && story[0].at == at
  }

  lemma ToldLasts(c: Config, steps: seq<Step>, states: seq<State>, i: nat, j: nat, e: Event, binding: string, at: int)
    requires Run(c, steps, states) && i <= j < |states| && Told(c, states[i], e, binding, at)
    ensures Told(c, states[j], e, binding, at)
  {
    LogsGrow(c, steps, states, i, j);
    StoryExtends(states[i].log, states[j].log, e.state);
    assert forall x | x in states[i].log :: x in states[j].log;
  }

  lemma ToldOfValidBinding(c: Config, steps: seq<Step>, states: seq<State>, i: nat, e: Event, binding: string, at: int)
    requires WellFormed(c) && Run(c, steps, states) && i < |states| && Told(c, states[i], e, binding, at)
    ensures binding in c.bindings && binding != "" && BrowserBinding(binding) == binding
  {
    RunKeepsInv(c, steps, states, i);
    assert StoryOk(c, states[i], e.state);
  }

  /** A browser that still holds the binding it was told under still sends it while that sign-in could be parked. */
  lemma HeldIsSent(c: Config, steps: seq<Step>, states: seq<State>, i: nat, e: Event, binding: string, at: int)
    requires WellFormed(c) && Run(c, steps, states) && i < |states| && Told(c, states[i], e, binding, at)
    requires Holds(states[i], e.browser, binding) && states[i].now <= at + MaxAge(c)
    ensures Sent(states[i], e.browser) == binding
  {
    RunKeepsInv(c, steps, states, i);
    assert DeliveryOk(c, states[i], e);
  }

  lemma {:induction false} LogsGrow(c: Config, steps: seq<Step>, states: seq<State>, i: nat, j: nat)
    requires Run(c, steps, states) && i <= j < |states|
    ensures states[i].log <= states[j].log && states[i].now <= states[j].now
    decreases j
  {
    if i < j {
      LogsGrow(c, steps, states, i, j - 1);
      LogGrows(c, steps, states, j - 1);
    }
  }

  lemma LogGrows(c: Config, steps: seq<Step>, states: seq<State>, m: nat)
    requires Run(c, steps, states) && m < |steps|
    ensures states[m].log <= states[m + 1].log && states[m].now <= states[m + 1].now
  {
    assert Takes(c, steps, states, m);
    StepGrows(c, states[m], steps[m]);
  }

  /**
   For as long as a sign-in it was told of could be parked, a browser that sends its own cookie keeps the binding
   and sends it.
   */
  lemma {:induction false} BrowserKeepsBinding(c: Config, steps: seq<Step>, states: seq<State>, i: nat, j: nat,
                                               e: Event, binding: string, at: int)
    requires WellFormed(c) && Run(c, steps, states) && i <= j < |states| && Told(c, states[i], e, binding, at)
    requires Holds(states[i], e.browser, binding) && states[j].now <= at + MaxAge(c)
    requires SendsItsCookie(steps, states, i, j, e.browser)
    ensures Holds(states[j], e.browser, binding) && Sent(states[j], e.browser) == binding
    decreases j
  {
    ToldLasts(c, steps, states, i, j, e, binding, at);
    if i < j {
      LogGrows(c, steps, states, j - 1);
      BrowserKeepsBinding(c, steps, states, i, j - 1, e, binding, at);
      ToldOfValidBinding(c, steps, states, i, e, binding, at);
      HoldingInRun(c, steps, states, j - 1, e.browser, binding);
    }
    HeldIsSent(c, steps, states, j, e, binding, at);
  }

  /** The first return of a browser from a sign-in it was told of finds the flow as it was parked, and in time. */
  lemma FirstReturnFinishes(c: Config, steps: seq<Step>, states: seq<State>, i: nat, j: nat, e: Event, binding: string,
                            at: int, flow: Flow)
    requires WellFormed(c) && Run(c, steps, states) && i <= j < |steps| && Told(c, states[i], e, binding, at)
    requires e.state != ""
    requires Lookup(states[i].flows, ParkingKey(c, e.state, binding)) == Some(Entry(flow, at + c.flowTTL))
    requires Holds(states[i], e.browser, binding)
    requires forall m | i <= m < j :: !OwnReturn(steps[m], e.state, binding)
    requires SendsItsCookie(steps, states, i, j, e.browser) && Returns(steps[j], states[j], e.browser, e.state)
    requires states[j].now <= at + MaxAge(c)
    ensures Lookup(states[j + 1].tasks, steps[j].id) ==
            Some(Taking(e.state, steps[j].return_.code, Some(Entry(flow, at + c.flowTTL))))
    ensures Opened(Some(Entry(flow, at + c.flowTTL)), states[j + 1].now) == Some(flow)
  {
    ToldOfValidBinding(c, steps, states, i, e, binding, at);
    BrowserKeepsBinding(c, steps, states, i, j, e, binding, at);
    ParkedUntilOwnReturn(c, steps, states, i, j, e.state, binding);
    MaxAgeBound(c);
    assert Takes(c, steps, states, j);
    var events := LandMoves(c, states[j], steps[j]);
  }

  /** The second start keeps the binding of the first, and parks its own flow under it. */
  lemma StartSharesBinding(c: Config, steps: seq<Step>, states: seq<State>, i: nat, n: nat, one: Event, binding: string,
                           at: int)
    requires WellFormed(c) && Run(c, steps, states) && i < n < |states| && Told(c, states[i], one, binding, at)
    requires Holds(states[i], one.browser, binding) && states[i].now <= at + MaxAge(c)
    requires steps[i].Start? && steps[i].browser == one.browser && steps[i].sent == Sent(states[i], one.browser)
    ensures BindBrowser(steps[i].sent, steps[i].random) == binding
    ensures [Started(steps[i].state, binding, steps[i].flow, states[i].now)] <= Story(states[n].log, steps[i].state)
    ensures Lookup(states[i + 1].flows, ParkingKey(c, steps[i].state, binding)) ==
            Some(Entry(steps[i].flow, states[i].now + c.flowTTL))
  {
    ToldOfValidBinding(c, steps, states, i, one, binding, at);
    HeldIsSent(c, steps, states, i, one, binding, at);
    StartedInRun(c, steps, states, i, n);
  }

  /** A start opens the story of its sign-in. */
  lemma StartedInRun(c: Config, steps: seq<Step>, states: seq<State>, i: nat, n: nat)
    requires WellFormed(c) && Run(c, steps, states) && i < n < |states| && steps[i].Start?
    ensures var binding := BindBrowser(steps[i].sent, steps[i].random);
            && |steps[i].random| == BINDING_BYTES
            && [Started(steps[i].state, binding, steps[i].flow, states[i].now)] <= Story(states[n].log, steps[i].state)
            && Lookup(states[i + 1].flows, ParkingKey(c, steps[i].state, binding)) ==
                 Some(Entry(steps[i].flow, states[i].now + c.flowTTL))
  {
    StartParks(c, steps, states, i);
    LogsGrow(c, steps, states, i + 1, n);
    StoryExtends(states[i + 1].log, states[n].log, steps[i].state);
  }

  lemma StartParks(c: Config, steps: seq<Step>, states: seq<State>, i: nat)
    requires WellFormed(c) && Run(c, steps, states) && i < |steps| && steps[i].Start?
    ensures var binding := BindBrowser(steps[i].sent, steps[i].random);
            && |steps[i].random| == BINDING_BYTES
            && Story(states[i + 1].log, steps[i].state) ==
                 [Started(steps[i].state, binding, steps[i].flow, states[i].now)]
            && Lookup(states[i + 1].flows, ParkingKey(c, steps[i].state, binding)) ==
                 Some(Entry(steps[i].flow, states[i].now + c.flowTTL))
  {
    var s, step := states[i], steps[i];
    RunKeepsInv(c, steps, states, i);
    assert StoryOk(c, s, step.state);
    assert Takes(c, steps, states, i);
    StartMoves(c, s, step);
    StoryGrows(s.log, Started(step.state, BindBrowser(step.sent, step.random), step.flow, s.now), step.state);
  }

  /** A second start shares the binding of the first; told of it in time, the browser holds that binding still. */
  lemma SecondIsTold(c: Config, steps: seq<Step>, states: seq<State>, i: nat, n: nat, one: Event, two: Event,
                     binding: string, at: int) returns (flow: Flow)
    requires WellFormed(c) && Run(c, steps, states) && i < n < |steps| && Told(c, states[i], one, binding, at)
    requires Holds(states[i], one.browser, binding) && states[i].now <= states[n].now <= at + MaxAge(c)
    requires steps[i].Start? && steps[i].browser == one.browser && SendsItsCookie(steps, states, i, n, one.browser)
    requires two.Delivered? && two in states[n].log && two.browser == one.browser && two.state == steps[i].state
    requires forall m | i <= m < n :: !OwnReturn(steps[m], two.state, binding)
    ensures flow == steps[i].flow && Told(c, states[n], two, binding, states[i].now)
    ensures Holds(states[n], two.browser, binding)
    ensures var parked := Some(Entry(flow, states[i].now + c.flowTTL));
            && Lookup(states[i + 1].flows, ParkingKey(c, two.state, binding)) == parked
            && Lookup(states[n].flows, ParkingKey(c, two.state, binding)) == parked
  {
    flow := steps[i].flow;
    StartSharesBinding(c, steps, states, i, n, one, binding, at);
    ToldOfValidBinding(c, steps, states, i, one, binding, at);
    ParkedUntilOwnReturn(c, steps, states, i + 1, n, two.state, binding);
    BrowserKeepsBinding(c, steps, states, i, n, one, binding, at);
  }

  /**
   Two tabs. A browser that was told of a sign-in `one` and holds its binding starts another while `one` is parked and
   its cookie lives. The second flow is parked under the same binding; and if its answer comes while `one` could still
   be finished, the browser's first return from either finds its flow in time, in any order, whatever else happens.
   */
  lemma TwoTabsBothReturn(c: Config, steps: seq<Step>, states: seq<State>, i: nat, n: nat, j: nat, k: nat,
                          one: Event, two: Event, binding: string, at: int, first: Flow)
    requires WellFormed(c) && Run(c, steps, states) && i < n <= k < |steps| && i < j < |steps|
    requires Told(c, states[i], one, binding, at) && Holds(states[i], one.browser, binding) && one.state != ""
    requires Lookup(states[i].flows, ParkingKey(c, one.state, binding)) == Some(Entry(first, at + c.flowTTL))
    requires steps[i].Start? && steps[i].browser == one.browser && states[i].now <= states[n].now <= at + MaxAge(c)
    requires two.Delivered? && two in states[n].log && two.browser == one.browser && two.state == steps[i].state != ""
    requires SendsItsCookie(steps, states, i, j, one.browser) && SendsItsCookie(steps, states, i, k, one.browser)
    requires Returns(steps[j], states[j], one.browser, one.state)
    requires forall m | i <= m < j :: !OwnReturn(steps[m], one.state, binding)
    requires Returns(steps[k], states[k], two.browser, two.state)
    requires forall m | i <= m < k :: !OwnReturn(steps[m], two.state, binding)
    ensures var parked, second := Entry(first, at + c.flowTTL), Entry(steps[i].flow, states[i].now + c.flowTTL);
            && Lookup(states[i + 1].flows, ParkingKey(c, two.state, binding)) == Some(second)
            && (states[j].now <= at + MaxAge(c) ==>
                  && Lookup(states[j + 1].tasks, steps[j].id) ==
                       Some(Taking(one.state, steps[j].return_.code, Some(parked)))
                  && Opened(Some(parked), states[j + 1].now) == Some(first))
            && (states[k].now <= states[i].now + MaxAge(c) ==>
                  && Lookup(states[k + 1].tasks, steps[k].id) ==
                       Some(Taking(two.state, steps[k].return_.code, Some(second)))
                  && Opened(Some(second), states[k + 1].now) == Some(second.data))
  {
    if states[j].now <= at + MaxAge(c) {
      FirstReturnFinishes(c, steps, states, i, j, one, binding, at, first);
    }
    var second := SecondIsTold(c, steps, states, i, n, one, two, binding, at);
    if states[k].now <= states[i].now + MaxAge(c) {
      FirstReturnFinishes(c, steps, states, n, k, two, binding, states[i].now, second);
    }
  }

  /**
   The fraction of a second a cookie's life leaves out matters: where the time to live is not in whole seconds, the
   cookie of a sign-in answered at once is gone while its flow still lives.
   */
  lemma CookieFallsShort(c: Config, s: State, random: seq<Byte>, flow: Flow, state: string)
      returns (steps: seq<Step>, t: State)
    requires Initial(s) && |random| == BINDING_BYTES && Encode(random) in c.bindings
    requires flow.started == s.now && flow.acrValues == "" && c.flowTTL % SECOND != 0
    ensures steps == [Start(1, 0, "", random, flow, state), Answer(1), Tick(MaxAge(c) + 1)] && Leads(c, s, steps, t)
    ensures Opened(Lookup(t.flows, ParkingKey(c, state, Encode(random))), t.now) == Some(flow) && Sent(t, 0) == ""
  {
    var start := Start(1, 0, "", random, flow, state);
    MaxAgeBound(c);
    StartMoves(c, s, start);
    LeadsFurther(c, s, [], s, start);
    var started := After(c, s, start);
    AnswerMoves(c, started, Answer(1));
    LeadsFurther(c, s, [start], started, Answer(1));
    var told := After(c, started, Answer(1));
    LeadsFurther(c, s, [start, Answer(1)], told, Tick(MaxAge(c) + 1));
    steps, t := [start, Answer(1), Tick(MaxAge(c) + 1)], After(c, told, Tick(MaxAge(c) + 1));
  }

  // When the tabs do not share a binding.

  /** A start gives the browser a binding in use exactly if the browser sent it; random values do not repeat. */
  lemma SharedExactly(sent: string, random: seq<Byte>, binding: string)
    requires |random| == BINDING_BYTES && BrowserBinding(binding) == binding != "" && Encode(random) != binding
    ensures BindBrowser(sent, random) == binding <==> sent == binding
  {}

  /** An unclaimed sign-in is found by a return exactly if that sends its own binding. */
  lemma FoundExactly(c: Config, s: State, state: string, sent: string)
    requires WellFormed(c) && StoriesOk(c, s) && sent in c.bindings && |Story(s.log, state)| == 1
    requires Story(s.log, state)[0].Started?
    ensures ParkingKey(c, state, sent) in s.flows <==> sent == Story(s.log, state)[0].binding
  {
    assert StoryOk(c, s, state);
    if ParkingKey(c, state, sent) in s.flows {
      FoundIsOwn(c, s, state, sent);
    }
  }

  /**
   Of two unclaimed sign-ins, a browser that sends the binding of the second finds the first exactly if the two
   share it.
   */
  lemma FirstTabFoundExactly(c: Config, s: State, one: string, two: string)
    requires WellFormed(c) && StoriesOk(c, s)
    requires |Story(s.log, one)| == |Story(s.log, two)| == 1 && Story(s.log, one)[0].Started?
    requires Story(s.log, two)[0].Started?
    ensures var sent, first := Story(s.log, two)[0].binding, Story(s.log, one)[0].binding;
            && BrowserBinding(first) == first && first != ""
            && ParkingKey(c, two, sent) in s.flows && (ParkingKey(c, one, sent) in s.flows <==> sent == first)
  {
    assert StoryOk(c, s, one) && StoryOk(c, s, two);
    FoundExactly(c, s, one, Story(s.log, two)[0].binding);
  }

  /**
   Exactly when the tabs get in each other's way. Two sign-ins are parked, the second by step `i`, and the browser
   holds the second's binding. Its return from the second finds the flow; its return from the first does if and only
   if the second start sent the first's binding.
   */
  lemma FirstTabReturnsExactly(c: Config, steps: seq<Step>, states: seq<State>, i: nat, n: nat, browser: nat,
                               one: string)
    requires WellFormed(c) && Run(c, steps, states) && i < n < |states| && steps[i].Start?
    requires |Story(states[n].log, one)| == 1 && Story(states[n].log, one)[0].Started?
    requires |Story(states[n].log, steps[i].state)| == 1
    requires Sent(states[n], browser) == BindBrowser(steps[i].sent, steps[i].random)
    requires Encode(steps[i].random) != Story(states[n].log, one)[0].binding
    ensures var s, sent := states[n], Sent(states[n], browser);
            && ParkingKey(c, steps[i].state, sent) in s.flows
            && (ParkingKey(c, one, sent) in s.flows <==> steps[i].sent == Story(s.log, one)[0].binding)
  {
    RunKeepsInv(c, steps, states, n);
    StartedInRun(c, steps, states, i, n);
    FirstTabFoundExactly(c, states[n], one, steps[i].state);
    SharedExactly(steps[i].sent, steps[i].random, Story(states[n].log, one)[0].binding);
  }

  /**
   It happens: of two first starts of one browser, both sent before either is answered, the second answer replaces the
   cookie of the first, and the first tab's return finds nothing although its flow is parked and live.
   */
  lemma CrossedStartsLoseTheFirst(c: Config, s: State, r1: seq<Byte>, r2: seq<Byte>, f1: Flow, f2: Flow, a: string,
                                  b: string)
      returns (steps: seq<Step>, t: State)
    requires WellFormed(c) && Initial(s) && |r1| == |r2| == BINDING_BYTES && Encode(r1) != Encode(r2)
    requires Encode(r1) in c.bindings && Encode(r2) in c.bindings
    requires f1.started == f2.started == s.now && f1.acrValues == f2.acrValues == "" && a != b && a != ""
    ensures steps == [Start(1, 0, "", r1, f1, a), Start(2, 0, "", r2, f2, b), Answer(1), Answer(2)]
            && Leads(c, s, steps, t)
    ensures Opened(Lookup(t.flows, ParkingKey(c, a, Encode(r1))), t.now) == Some(f1)
    ensures var land := Land(3, Return(true, "", "code", a, Sent(t, 0)));
            Enabled(c, t, land) && Lookup(After(c, t, land).tasks, 3) == Some(Taking(a, "code", None))
  {
    steps, t := CrossedAnswers(c, s, r1, r2, f1, f2, a, b);
    ReturnFindsNothing(c, t, a, Encode(r2), r2);
  }

  lemma CrossedAnswers(c: Config, s: State, r1: seq<Byte>, r2: seq<Byte>, f1: Flow, f2: Flow, a: string, b: string)
      returns (steps: seq<Step>, t: State)
    requires WellFormed(c) && Initial(s) && |r1| == |r2| == BINDING_BYTES && Encode(r1) != Encode(r2)
    requires Encode(r1) in c.bindings && Encode(r2) in c.bindings
    requires f1.started == f2.started == s.now && f1.acrValues == f2.acrValues == "" && a != b
    ensures steps == [Start(1, 0, "", r1, f1, a), Start(2, 0, "", r2, f2, b), Answer(1), Answer(2)]
    ensures Leads(c, s, steps, t) && t.tasks == map[] && Sent(t, 0) == Encode(r2)
    ensures Opened(Lookup(t.flows, ParkingKey(c, a, Encode(r1))), t.now) == Some(f1)
    ensures ParkingKey(c, a, Encode(r2)) !in t.flows
  {
    var both := CrossedStarts(c, s, r1, r2, f1, f2, a, b);
    var more, end := AnswersReplaceTheCookie(c, both, 0, Encode(r1), Encode(r2), a, b);
    var starts := [Start(1, 0, "", r1, f1, a), Start(2, 0, "", r2, f2, b)];
    LeadsOn(c, s, starts, both, more, end);
    steps, t := starts + more, end;
  }

  lemma CrossedStarts(c: Config, s: State, r1: seq<Byte>, r2: seq<Byte>, f1: Flow, f2: Flow, a: string, b: string)
      returns (t: State)
    requires WellFormed(c) && Initial(s) && |r1| == |r2| == BINDING_BYTES && Encode(r1) != Encode(r2)
    requires Encode(r1) in c.bindings && Encode(r2) in c.bindings
    requires f1.started == f2.started == s.now && f1.acrValues == f2.acrValues == "" && a != b
    ensures Leads(c, s, [Start(1, 0, "", r1, f1, a), Start(2, 0, "", r2, f2, b)], t)
    ensures t.tasks == map[1 := Starting(0, a, Encode(r1)), 2 := Starting(0, b, Encode(r2))] && t.now == s.now
    ensures Lookup(t.flows, ParkingKey(c, a, Encode(r1))) == Some(Entry(f1, s.now + c.flowTTL))
            && ParkingKey(c, a, Encode(r2)) !in t.flows
  {
    var one, two := Start(1, 0, "", r1, f1, a), Start(2, 0, "", r2, f2, b);
    StartMoves(c, s, one);
    LeadsFurther(c, s, [], s, one);
    var started := After(c, s, one);
    StartMoves(c, started, two);
    LeadsFurther(c, s, [one], started, two);
    t := After(c, started, two);
    OthersKeyDiffers(c, a, Encode(r2), a, Encode(r1));
    OthersKeyDiffers(c, a, Encode(r2), b, Encode(r2));
    OthersKeyDiffers(c, a, Encode(r1), b, Encode(r2));
  }

  lemma ReturnFindsNothing(c: Config, t: State, state: string, sent: string, random: seq<Byte>)
    requires |random| == BINDING_BYTES && sent == Encode(random) && sent in c.bindings && state != "" && 3 !in t.tasks
    requires ParkingKey(c, state, sent) !in t.flows
    ensures var land := Land(3, Return(true, "", "code", state, sent));
            Enabled(c, t, land) && Lookup(After(c, t, land).tasks, 3) == Some(Taking(state, "code", None))
  {
    BindingIsKept("", random, random);
    var events := LandMoves(c, t, Land(3, Return(true, "", "code", state, sent)));
  }

  /** Answers set the cookie in the order they arrive. */
  lemma AnswersReplaceTheCookie(c: Config, s: State, browser: nat, one: string, two: string, a: string, b: string)
      returns (steps: seq<Step>, t: State)
    requires s.tasks == map[1 := Starting(browser, a, one), 2 := Starting(browser, b, two)]
    ensures steps == [Answer(1), Answer(2)] && Leads(c, s, steps, t)
    ensures t.flows == s.flows && t.tasks == map[] && t.now == s.now && Sent(t, browser) == two
  {
    AnswerMoves(c, s, Answer(1));
    LeadsFurther(c, s, [], s, Answer(1));
    var told := After(c, s, Answer(1));
    AnswerMoves(c, told, Answer(2));
    LeadsFurther(c, s, [Answer(1)], told, Answer(2));
    steps, t := [Answer(1), Answer(2)], After(c, told, Answer(2));
  }

  lemma OthersKeyDiffers(c: Config, s: string, a: string, t: string, b: string)
    requires WellFormed(c) && a in c.bindings && b in c.bindings && (s != t || a != b)
    ensures ParkingKey(c, s, a) != ParkingKey(c, t, b)
  {
    if ParkingKey(c, s, a) == ParkingKey(c, t, b) {
      SameKeySameSignIn(c, s, a, t, b);
    }
  }
}
