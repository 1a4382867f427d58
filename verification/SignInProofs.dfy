/** What every run of the sign-in and session system keeps. */
module SignInProofs {
  import opened Common
  import opened FlowKey
  import opened Sessions
  import opened SessionStore
  import opened SignIn

  // The story of one sign-in: the events that name its state.

  predicate InStory(e: Event) {
    e.Started? || e.Claimed? || e.Taken? || e.Exchanged? || e.SessionOpened?
  }

  ghost function Story(log: seq<Event>, state: string): seq<Event> {
    if log == [] then [] else
      var e := log[|log| - 1];
      Story(log[..|log| - 1], state) + if InStory(e) && e.state == state then [e] else []
  }

  /**
   A sign-in starts once, is claimed, taken, exchanged and opened at most once each and in this order, all on the
   data it started with.
   */
  ghost predicate WellTold(story: seq<Event>) {
    && |story| <= 5
    && (|story| > 0 ==> story[0].Started?)
    && (|story| > 1 ==> story[1].Claimed? && story[1].sent == story[0].binding)
    && (|story| > 2 ==> story[2].Taken? && story[2].flow == story[0].flow)
    && (|story| > 3 ==> story[3].Exchanged? && story[3].flow == story[0].flow)
    && (|story| > 4 ==> story[4].SessionOpened? && story[4].session.key == story[0].flow.key)
  }

  ghost predicate StoryOk(c: Config, s: State, state: string) {
    var story := Story(s.log, state);
    && WellTold(story)
    && (story != [] ==>
          && state in s.states && story[0].at <= s.now
          && story[0].binding in c.bindings && story[0].binding != ""
          && BrowserBinding(story[0].binding) == story[0].binding)
    && (|story| == 1 ==>
          Lookup(s.flows, ParkingKey(c, state, story[0].binding)) ==
            Some(Entry(story[0].flow, story[0].at + c.flowTTL)))
  }

  /** Every parked flow belongs to a sign-in nobody has claimed. */
  ghost predicate FlowOk(c: Config, s: State, k: string) {
    exists state :: Parks(c, s, state, k)
  }

  ghost predicate Parks(c: Config, s: State, state: string, k: string) {
    var story := Story(s.log, state);
    |story| == 1 && story[0].Started? && k == ParkingKey(c, state, story[0].binding)
  }

  /** A request past the claim of a sign-in is the one that claimed it, at the point its story has reached. */
  ghost predicate Claims(s: State, id: nat, state: string, length: nat) {
    var story := Story(s.log, state);
    1 < |story| == length && story[0].Started? && story[1].Claimed? && story[1].task == id
  }

  ghost predicate TaskStoryOk(c: Config, s: State, id: nat)
    requires id in s.tasks
    requires forall state :: StoryOk(c, s, state)
  {
    match s.tasks[id]
    case Starting(_, state, binding) =>
      var story := Story(s.log, state);
      story != [] && story[0].Started? && story[0].binding == binding
    case Taking(state, _, Some(e)) =>
      && Claims(s, id, state, 2)
      && e == Entry(Story(s.log, state)[0].flow, Story(s.log, state)[0].at + c.flowTTL)
    case Redeeming(state, _, flow) => Claims(s, id, state, 3) && flow == Story(s.log, state)[0].flow
    case Opening(state, _, session) => Claims(s, id, state, 4) && session.key == Story(s.log, state)[0].flow.key
    case _ => true
  }

  ghost predicate StoriesOk(c: Config, s: State) {
    && (forall state :: StoryOk(c, s, state))
    && (forall k | k in s.flows :: FlowOk(c, s, k))
    && (forall id | id in s.tasks :: TaskStoryOk(c, s, id))
  }

  lemma StoryOfInitial(c: Config, s: State)
    requires Initial(s)
    ensures StoriesOk(c, s)
  {}

  lemma StoryGrows(log: seq<Event>, e: Event, state: string)
    ensures Story(log + [e], state) == Story(log, state) + if InStory(e) && e.state == state then [e] else []
  {
    assert (log + [e])[..|log|] == log;
  }

  lemma StoryGrowsTwice(log: seq<Event>, e: Event, f: Event, state: string)
    requires !InStory(f)
    ensures Story(log + [e, f], state) == Story(log, state) + if InStory(e) && e.state == state then [e] else []
  {
    var more := log + [e];
    StoryGrows(log, e, state);
    StoryGrows(more, f, state);
    assert log + [e, f] == more + [f];
  }

  lemma StoryGrowsBy(log: seq<Event>, events: seq<Event>, state: string)
    requires |events| <= 2 && forall i | 1 <= i < |events| :: !InStory(events[i])
    ensures Story(log + events, state) ==
            Story(log, state) +
            if events != [] && InStory(events[0]) && events[0].state == state then [events[0]] else []
  {
    if events == [] {
      assert log + events == log;
    } else if |events| == 1 {
      assert events == [events[0]];
      StoryGrows(log, events[0], state);
    } else {
      assert events == [events[0], events[1]];
      StoryGrowsTwice(log, events[0], events[1], state);
    }
  }

  /** A request that holds no sign-in. */
  predicate Quiet(t: Task) {
    t.Resolving? || t.Serving? || t.Storing? || (t.Taking? && t.parked.None?)
  }

  /** Steps that record nothing about any sign-in, park nothing, and hold no sign-in they did not hold before. */
  lemma QuietStep(c: Config, s: State, t: State)
    requires StoriesOk(c, s)
    requires forall state :: Story(t.log, state) == Story(s.log, state)
    requires t.flows == s.flows && t.states == s.states && t.now >= s.now
    requires forall id | id in t.tasks :: Quiet(t.tasks[id]) || (id in s.tasks && t.tasks[id] == s.tasks[id])
    ensures StoriesOk(c, t)
  {
    forall state ensures StoryOk(c, t, state) { assert StoryOk(c, s, state); }
    forall k | k in t.flows ensures FlowOk(c, t, k) {
      assert FlowOk(c, s, k);
      var state :| Parks(c, s, state, k);
      assert Parks(c, t, state, k);
    }
    forall id | id in t.tasks ensures TaskStoryOk(c, t, id) {
      if id in s.tasks && t.tasks[id] == s.tasks[id] { assert TaskStoryOk(c, s, id); }
    }
  }

  lemma QuietMove(c: Config, s: State, t: State, id: nat, task: Option<Task>, events: seq<Event>)
    requires StoriesOk(c, s) && Moves(s, t, id, task, events) && t.flows == s.flows && t.states == s.states
    requires events == [] || (|events| == 1 && !InStory(events[0]))
    requires task.Some? ==> Quiet(task.value)
    ensures StoriesOk(c, t)
  {
    forall state ensures Story(t.log, state) == Story(s.log, state) { StoryGrowsBy(s.log, events, state); }
    QuietStep(c, s, t);
  }

  /** What a step that adds one event to the story of `moved` leaves alone. */
  ghost predicate OnlyMoves(c: Config, s: State, t: State, moved: string, e: Event, id: nat) {
    && InStory(e) && e.state == moved
    && (forall state :: Story(t.log, state) == Story(s.log, state) + if state == moved then [e] else [])
    && s.states <= t.states && t.now == s.now
    && (forall i | i in t.tasks && i != id :: i in s.tasks && t.tasks[i] == s.tasks[i])
  }

  lemma MovesOnly(c: Config, s: State, t: State, id: nat, task: Option<Task>, events: seq<Event>)
    requires Moves(s, t, id, task, events) && s.states <= t.states
    requires 1 <= |events| <= 2 && InStory(events[0]) && forall i | 1 <= i < |events| :: !InStory(events[i])
    ensures OnlyMoves(c, s, t, events[0].state, events[0], id)
  {
    forall state
      ensures Story(t.log, state) == Story(s.log, state) + if state == events[0].state then [events[0]] else []
    {
      StoryGrowsBy(s.log, events, state);
    }
  }

  lemma TasksUnmoved(c: Config, s: State, t: State, moved: string, e: Event, id: nat)
    requires StoriesOk(c, s) && OnlyMoves(c, s, t, moved, e, id)
    requires forall state :: StoryOk(c, t, state)
    requires Story(s.log, moved) == [] || |Story(s.log, moved)| == 1
             || (Story(s.log, moved)[1].Claimed? && Story(s.log, moved)[1].task == id)
    ensures forall i | i in t.tasks && i != id :: TaskStoryOk(c, t, i)
  {
    forall i | i in t.tasks && i != id
      ensures TaskStoryOk(c, t, i)
    {
      assert TaskStoryOk(c, s, i);
    }
  }

  lemma FlowsUnmoved(c: Config, s: State, t: State, moved: string, e: Event, id: nat)
    requires StoriesOk(c, s) && OnlyMoves(c, s, t, moved, e, id)
    requires forall k | k in t.flows :: k in s.flows && !Parks(c, s, moved, k)
    ensures forall k | k in t.flows :: FlowOk(c, t, k)
  {
    forall k | k in t.flows
      ensures FlowOk(c, t, k)
    {
      assert FlowOk(c, s, k);
      var state :| Parks(c, s, state, k);
      assert Parks(c, t, state, k);
    }
  }

  lemma SameKeySameSignIn(c: Config, s: string, a: string, t: string, b: string)
    requires WellFormed(c) && a in c.bindings && b in c.bindings && ParkingKey(c, s, a) == ParkingKey(c, t, b)
    ensures s == t && a == b
  {
    KeyIsInjective(s, c.hash(a), t, c.hash(b));
  }

  /** Parking or removing one sign-in's flow leaves the stories of all others as they are. */
  lemma OtherStoriesOk(c: Config, s: State, t: State, moved: string, e: Event, id: nat, binding: string)
    requires WellFormed(c) && StoriesOk(c, s) && OnlyMoves(c, s, t, moved, e, id) && binding in c.bindings
    requires forall k | k != ParkingKey(c, moved, binding) :: Lookup(t.flows, k) == Lookup(s.flows, k)
    ensures forall other | other != moved :: StoryOk(c, t, other)
  {
    forall other | other != moved
      ensures StoryOk(c, t, other)
    {
      assert StoryOk(c, s, other);
      if |Story(s.log, other)| == 1
        && ParkingKey(c, other, Story(s.log, other)[0].binding) == ParkingKey(c, moved, binding) {
        SameKeySameSignIn(c, other, Story(s.log, other)[0].binding, moved, binding);
      }
    }
  }

  lemma ParkedFlowsOk(c: Config, s: State, t: State, state: string, e: Event, id: nat, k: string)
    requires StoriesOk(c, s) && OnlyMoves(c, s, t, state, e, id) && Story(s.log, state) == []
    requires Parks(c, t, state, k) && forall j | j in t.flows && j != k :: j in s.flows
    ensures forall j | j in t.flows :: FlowOk(c, t, j)
  {
    forall j | j in t.flows
      ensures FlowOk(c, t, j)
    {
      if j != k {
        assert FlowOk(c, s, j);
        var other :| Parks(c, s, other, j);
        assert Parks(c, t, other, j);
      }
    }
  }

  lemma NewStoryOk(c: Config, t: State, state: string, binding: string, flow: Flow)
    requires Story(t.log, state) == [Started(state, binding, flow, t.now)] && state in t.states
    requires binding in c.bindings && binding != "" && BrowserBinding(binding) == binding
    requires Lookup(t.flows, ParkingKey(c, state, binding)) == Some(Entry(flow, t.now + c.flowTTL))
    ensures StoryOk(c, t, state)
  {}

  lemma ParkKeepsStories(c: Config, s: State, t: State, id: nat, browser: nat, state: string, binding: string,
                         flow: Flow)
    requires WellFormed(c) && StoriesOk(c, s) && id !in s.tasks && state !in s.states
    requires binding in c.bindings && binding != "" && BrowserBinding(binding) == binding
    requires Moves(s, t, id, Some(Starting(browser, state, binding)), [Started(state, binding, flow, s.now)])
    requires t.flows == s.flows[ParkingKey(c, state, binding) := Entry(flow, s.now + c.flowTTL)]
    requires t.states == s.states + {state}
    ensures StoriesOk(c, t)
  {
    var e := Started(state, binding, flow, s.now);
    assert Story(s.log, state) == [] by { assert StoryOk(c, s, state); }
    MovesOnly(c, s, t, id, Some(Starting(browser, state, binding)), [e]);
    assert Story(t.log, state) == [e];
    assert forall other :: StoryOk(c, t, other) by {
      OtherStoriesOk(c, s, t, state, e, id, binding);
      NewStoryOk(c, t, state, binding, flow);
    }
    assert forall j | j in t.flows :: FlowOk(c, t, j) by {
      ParkedFlowsOk(c, s, t, state, e, id, ParkingKey(c, state, binding));
    }
    TasksUnmoved(c, s, t, state, e, id);
  }

  lemma StartKeepsStories(c: Config, s: State, step: Step)
    requires WellFormed(c) && StoriesOk(c, s) && step.Start? && Enabled(c, s, step)
    ensures StoriesOk(c, After(c, s, step))
  {
    BindingIsKept(step.sent, step.random, step.random);
    StartMoves(c, s, step);
    ParkKeepsStories(c, s, After(c, s, step), step.id, step.browser, step.state, BindBrowser(step.sent, step.random),
      step.flow);
  }

  /** A return that finds a parked flow names the sign-in it belongs to. */
  lemma FoundIsOwn(c: Config, s: State, state: string, binding: string)
    requires WellFormed(c) && StoriesOk(c, s) && binding in c.bindings && ParkingKey(c, state, binding) in s.flows
    ensures Parks(c, s, state, ParkingKey(c, state, binding)) && Story(s.log, state)[0].binding == binding
  {
    var k := ParkingKey(c, state, binding);
    assert FlowOk(c, s, k);
    var owner :| Parks(c, s, owner, k);
    assert StoryOk(c, s, owner);
    SameKeySameSignIn(c, owner, Story(s.log, owner)[0].binding, state, binding);
  }

  lemma ClaimKeepsStories(c: Config, s: State, t: State, state: string, code: string, binding: string, id: nat)
    requires WellFormed(c) && StoriesOk(c, s) && binding in c.bindings && id !in s.tasks
    requires ParkingKey(c, state, binding) in s.flows
    requires Moves(s, t, id, Some(Taking(state, code, Lookup(s.flows, ParkingKey(c, state, binding)))),
             [Claimed(state, id, binding)])
    requires t.flows == s.flows - {ParkingKey(c, state, binding)} && t.states == s.states
    ensures StoriesOk(c, t)
  {
    var k, e := ParkingKey(c, state, binding), Claimed(state, id, binding);
    FoundIsOwn(c, s, state, binding);
    MovesOnly(c, s, t, id, Some(Taking(state, code, Lookup(s.flows, k))), [e]);
    OtherStoriesOk(c, s, t, state, e, id, binding);
    assert StoryOk(c, s, state) && StoryOk(c, t, state);
    FlowsUnmoved(c, s, t, state, e, id);
    TasksUnmoved(c, s, t, state, e, id);
    assert TaskStoryOk(c, t, id);
  }

  lemma LandKeepsStories(c: Config, s: State, step: Step)
    requires WellFormed(c) && StoriesOk(c, s) && step.Land? && Enabled(c, s, step)
    ensures StoriesOk(c, After(c, s, step))
  {
    var t, r := After(c, s, step), step.return_;
    if Gate(r).Ok? {
      var events := LandMoves(c, s, step);
      var k := ParkingKey(c, r.state, Gate(r).value);
      if k in s.flows {
        ClaimKeepsStories(c, s, t, r.state, r.code, Gate(r).value, step.id);
      } else {
        QuietMove(c, s, t, step.id, Some(Taking(r.state, r.code, None)), []);
      }
    }
  }

  /** A request that holds a sign-in tells the next event of its story. */
  lemma HolderKeepsStories(c: Config, s: State, t: State, id: nat, task: Option<Task>, events: seq<Event>, length: nat)
    requires WellFormed(c) && StoriesOk(c, s) && id in s.tasks && Moves(s, t, id, task, events) && t.flows == s.flows
    requires t.states == s.states
    requires 1 <= |events| <= 2 && InStory(events[0]) && forall i | 1 <= i < |events| :: !InStory(events[i])
    requires length >= 2 && Claims(s, id, events[0].state, length)
    requires WellTold(Story(s.log, events[0].state) + [events[0]])
    ensures forall state :: StoryOk(c, t, state)
    ensures Story(t.log, events[0].state) == Story(s.log, events[0].state) + [events[0]]
    ensures task.None? || TaskStoryOk(c, t, id) ==> StoriesOk(c, t)
  {
    MovesOnly(c, s, t, id, task, events);
    HeldStoriesOk(c, s, t, events[0], id);
    FlowsKept(c, s, t, events[0], id);
    TasksUnmoved(c, s, t, events[0].state, events[0], id);
  }

  lemma HeldStoryOk(c: Config, s: State, t: State, e: Event, state: string)
    requires StoryOk(c, s, state) && InStory(e) && s.states <= t.states && t.now == s.now && t.flows == s.flows
    requires Story(t.log, state) == Story(s.log, state) + if state == e.state then [e] else []
    requires state == e.state ==> |Story(s.log, state)| > 1 && WellTold(Story(s.log, state) + [e])
    ensures StoryOk(c, t, state)
  {}

  lemma HeldStoriesOk(c: Config, s: State, t: State, e: Event, id: nat)
    requires StoriesOk(c, s) && InStory(e) && OnlyMoves(c, s, t, e.state, e, id) && t.flows == s.flows
    requires |Story(s.log, e.state)| > 1 && WellTold(Story(s.log, e.state) + [e])
    ensures forall state :: StoryOk(c, t, state)
  {
    forall state
      ensures StoryOk(c, t, state)
    {
      HeldStoryOk(c, s, t, e, state);
    }
  }

  lemma FlowsKept(c: Config, s: State, t: State, e: Event, id: nat)
    requires StoriesOk(c, s) && InStory(e) && OnlyMoves(c, s, t, e.state, e, id) && t.flows == s.flows
    requires |Story(s.log, e.state)| > 1
    ensures forall j | j in t.flows :: FlowOk(c, t, j)
  {
    forall j | j in t.flows ensures !Parks(c, s, e.state, j) {}
    FlowsUnmoved(c, s, t, e.state, e, id);
  }

  lemma CheckKeepsStories(c: Config, s: State, step: Step)
    requires WellFormed(c) && StoriesOk(c, s) && step.Check? && Enabled(c, s, step)
    ensures StoriesOk(c, After(c, s, step))
  {
    var task, events := CheckMoves(c, s, step);
    TakingKeepsStories(c, s, After(c, s, step), step.id, task, events);
  }

  lemma TakingKeepsStories(c: Config, s: State, t: State, id: nat, task: Option<Task>, events: seq<Event>)
    requires WellFormed(c) && StoriesOk(c, s) && id in s.tasks && s.tasks[id].Taking?
    requires Moves(s, t, id, task, events) && t.flows == s.flows && t.states == s.states
    requires var was := s.tasks[id];
             var flow := Opened(was.parked, s.now);
             && task == (if flow.None? then None else Some(Redeeming(was.state, was.code, flow.value)))
             && events == (if flow.None? then [] else [Taken(was.state, flow.value)])
    ensures StoriesOk(c, t)
  {
    if events == [] {
      QuietMove(c, s, t, id, task, events);
    } else {
      assert TaskStoryOk(c, s, id) && StoryOk(c, s, s.tasks[id].state);
      HolderKeepsStories(c, s, t, id, task, events, 2);
    }
  }

  lemma RedeemKeepsStories(c: Config, s: State, step: Step)
    requires WellFormed(c) && StoriesOk(c, s) && step.Redeem? && Enabled(c, s, step)
    ensures StoriesOk(c, After(c, s, step))
  {
    var task, events := RedeemMoves(c, s, step);
    assert task.Some? ==> task.value.session.key == s.tasks[step.id].flow.key;
    ExchangeKeepsStories(c, s, After(c, s, step), step.id, task, events);
  }

  lemma ExchangeKeepsStories(c: Config, s: State, t: State, id: nat, task: Option<Task>, events: seq<Event>)
    requires WellFormed(c) && StoriesOk(c, s) && id in s.tasks && s.tasks[id].Redeeming?
    requires Moves(s, t, id, task, events) && t.flows == s.flows && t.states == s.states
    requires 1 <= |events| <= 2 && events[0] == Exchanged(s.tasks[id].state, s.tasks[id].code, s.tasks[id].flow)
    requires forall i | 1 <= i < |events| :: !InStory(events[i])
    requires task.Some? ==>
               && task.value.Opening? && task.value.state == s.tasks[id].state
               && task.value.session.key == s.tasks[id].flow.key
    ensures StoriesOk(c, t)
  {
    assert TaskStoryOk(c, s, id) && StoryOk(c, s, s.tasks[id].state);
    HolderKeepsStories(c, s, t, id, task, events, 3);
  }

  lemma OpenKeepsStories(c: Config, s: State, step: Step)
    requires WellFormed(c) && StoriesOk(c, s) && step.Open? && Enabled(c, s, step)
    ensures StoriesOk(c, After(c, s, step))
  {
    OpenMoves(c, s, step);
    OpeningKeepsStories(c, s, After(c, s, step), step.id);
  }

  lemma OpeningKeepsStories(c: Config, s: State, t: State, id: nat)
    requires WellFormed(c) && StoriesOk(c, s) && id in s.tasks && s.tasks[id].Opening?
    requires Moves(s, t, id, None, [SessionOpened(s.tasks[id].state, s.tasks[id].sid, s.tasks[id].session)])
    requires t.flows == s.flows && t.states == s.states
    ensures StoriesOk(c, t)
  {
    assert TaskStoryOk(c, s, id) && StoryOk(c, s, s.tasks[id].state);
    HolderKeepsStories(c, s, t, id, None, [SessionOpened(s.tasks[id].state, s.tasks[id].sid, s.tasks[id].session)], 4);
  }

  /** The steps of a session, and the ends of requests, concern no sign-in. */
  lemma SessionStepKeepsStories(c: Config, s: State, step: Step)
    requires StoriesOk(c, s) && Enabled(c, s, step)
    requires step.Request? || step.Admit? || step.HandOut? || step.Renew? || step.Save?
    ensures StoriesOk(c, After(c, s, step))
  {
    var t, id := After(c, s, step), step.id;
    match step
    case Request(_, sid, verb, header, work) =>
      RequestMoves(c, s, step);
      QuietMove(c, s, t, id, Some(Resolving(sid, Lookup(s.sessions, sid), verb, header, work)), []);
    case Admit(_) =>
      var task := AdmitMoves(c, s, step);
      QuietMove(c, s, t, id, task, []);
    case HandOut(_) =>
      HandOutMoves(c, s, step);
      QuietMove(c, s, t, id, Some(t.tasks[id]), [HandedOut(s.tasks[id].sid, s.tasks[id].session.accessToken, s.now)]);
    case Renew(_, tokens) =>
      RenewMoves(c, s, step);
      QuietMove(c, s, t, id, Some(t.tasks[id]), [Answered(tokens, s.now)]);
    case Save(_) =>
      SaveMoves(c, s, step);
      QuietMove(c, s, t, id, Some(t.tasks[id]), [SessionSaved(s.tasks[id].sid, s.tasks[id].session)]);
  }

  lemma EndKeepsStories(c: Config, s: State, step: Step)
    requires StoriesOk(c, s) && Enabled(c, s, step) && (step.Answer? || step.Logout? || step.Drop?)
    ensures StoriesOk(c, After(c, s, step))
  {
    var t, id := After(c, s, step), step.id;
    match step
    case Answer(_) =>
      AnswerMoves(c, s, step);
      QuietMove(c, s, t, id, None, [Delivered(s.tasks[id].state, s.tasks[id].browser)]);
    case Logout(_) =>
      LogoutMoves(c, s, step);
      QuietMove(c, s, t, id, None, []);
    case Drop(_) =>
      DropMoves(c, s, step);
      QuietMove(c, s, t, id, None, []);
  }

  lemma StepKeepsStories(c: Config, s: State, step: Step)
    requires WellFormed(c) && StoriesOk(c, s) && Enabled(c, s, step)
    ensures StoriesOk(c, After(c, s, step))
  {
    match step
    case Tick(_) => QuietStep(c, s, After(c, s, step));
    case Start(_, _, _, _, _, _) => StartKeepsStories(c, s, step);
    case Land(_, _) => LandKeepsStories(c, s, step);
    case Check(_) => CheckKeepsStories(c, s, step);
    case Redeem(_, _, _, _) => RedeemKeepsStories(c, s, step);
    case Open(_) => OpenKeepsStories(c, s, step);
    case Answer(_) => EndKeepsStories(c, s, step);
    case Logout(_) => EndKeepsStories(c, s, step);
    case Drop(_) => EndKeepsStories(c, s, step);
    case _ => SessionStepKeepsStories(c, s, step);
  }
}
