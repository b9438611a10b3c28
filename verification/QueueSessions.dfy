/**
 * Any number of callers going through a queue at once: `enqueueCaller` as a
 * state machine per caller, one step for each stretch between two awaits,
 * driving the queue through the hooks of the queue route. What the media and
 * SIP libraries do, and when, is left open. The correspondence of callers and
 * agents, which the queue keeps when its operations are used in order, is here
 * derived from the code that uses them.
 */
module QueueSessions {
  import opened Common
  import opened CallQueue
  import Protocol = QueueCorrespondence

  /** Where `enqueueCaller` is suspended. */
  datatype Phase =
    | Greeting
    | Hunting
    | Offering(ext: string)
    | RingingAgent(ext: string)
    | Joining(ext: string)
    | Bridging(ext: string)
    | Talking(ext: string)
    | SayingGoodbye
    | Finished
  {
    /** The agent the session has marked as ringing. */
    predicate OnAgent() {
      Offering? || RingingAgent? || Joining? || Bridging?
    }
  }

  /**
   * `wired`: the hang-up listeners have been replaced by those of a bridge, and
   * stay replaced even if that bridge fails. `abandoned` is the local flag that
   * only the first listeners set; `ended` says that a hook has dequeued the caller.
   */
  datatype Session = Session(phase: Phase, wired: bool, abandoned: bool, ended: bool)

  const NEWCOMER: Session := Session(Greeting, false, false, false)

  const WAITING: Session := NEWCOMER.(phase := Hunting)

  datatype System = System(queue: Queue, sessions: map<string, Session>) {
    function With(c: string, s: Session): System {
      this.(sessions := sessions[c := s])
    }
  }

  datatype Event =
    | Arrive(c: string)
    | Greeted(c: string)
    | Fail(c: string, online: set<string>)
    | Hunt(c: string, reachable: set<string>)
    | EndpointUp(c: string)
    | AgentAnswers(c: string, online: set<string>)
    | AgentSilent(c: string, online: set<string>)
    | LegsReady(c: string)
    | BridgeUp(c: string)
    | BridgeFails(c: string, online: set<string>)
    | HangUp(c: string, online: set<string>)
    | TimeUp(c: string)
    | Leave(c: string, online: set<string>)
    | Presence(online: set<string>)
    | Pause(ext: string, paused: bool, online: set<string>)

  /** What can happen next. */
  predicate Possible(sys: System, e: Event) {
    match e
    case Presence(_) => true
    case Pause(_, _, _) => true
    case Arrive(c) => c !in sys.sessions
    case _ =>
      && e.c in sys.sessions
      && var s := sys.sessions[e.c];
         match e
         case Greeted(_) => s.phase.Greeting?
         case Fail(_, _) => s.phase.Greeting? || s.phase.Offering?
         case Hunt(_, _) => s.phase.Hunting? && !s.abandoned
         case EndpointUp(_) => s.phase.Offering?
         case AgentAnswers(_, _) => s.phase.RingingAgent?
         case AgentSilent(_, _) => s.phase.RingingAgent?
         case LegsReady(_) => s.phase.Joining?
         case BridgeUp(_) => s.phase.Bridging?
         case BridgeFails(_, _) => s.phase.Joining? || s.phase.Bridging?
         case HangUp(_, _) => !s.phase.Greeting? && !s.phase.Finished?
         case TimeUp(_) => s.phase.Hunting? && !s.abandoned
         case Leave(_, _) => s.phase.SayingGoodbye? || (s.phase.Hunting? && s.abandoned)
         case _ => true
  }

  /** The hooks for an abandoned, timed out or ended caller all dequeue it; a second time does nothing. */
  function Gone(sys: System, c: string, s: Session, online: set<string>, at: int): System {
    System(Dequeued(sys.queue, c, online, at), sys.sessions[c := s.(ended := true)])
  }

  /** One round of the hunting loop: pick an agent that can be reached and ring it, in one step. */
  function Offered(sys: System, c: string, s: Session, reachable: set<string>): System {
    var found := Hunted(sys.queue, reachable, {}, |sys.queue.agents|);
    if found.agent.None? then sys.(queue := found.queue)
    else System(RingMarked(found.queue, c, found.agent.value), sys.sessions[c := s.(phase := Offering(found.agent.value))])
  }

  /** The agent did not take the call: the hook releases it and the loop goes on. */
  function TurnedDown(sys: System, c: string, s: Session, online: set<string>, at: int): System
    requires s.phase.OnAgent()
  {
    System(RingReleased(sys.queue, c, s.phase.ext, online, at), sys.sessions[c := s.(phase := Hunting)])
  }

  /** A step of one caller's session. */
  function SessionStep(sys: System, e: Event, s: Session, at: int): System
    requires !e.Presence? && !e.Pause? && !e.Arrive? && Possible(sys, e) && s == sys.sessions[e.c]
  {
    match e
    case Greeted(c) => sys.With(c, s.(phase := Hunting))
    case Fail(c, online) => Gone(sys, c, s.(phase := Finished), online, at)
    case Hunt(c, reachable) => Offered(sys, c, s, reachable)
    case EndpointUp(c) => sys.With(c, s.(phase := RingingAgent(s.phase.ext)))
    case AgentAnswers(c, online) =>
      if s.abandoned then Gone(sys, c, s.(phase := Finished), online, at)
      else sys.With(c, s.(phase := Joining(s.phase.ext)))
    case AgentSilent(c, online) =>
      if s.abandoned then Gone(sys, c, s.(phase := Finished), online, at)
      else TurnedDown(sys, c, s, online, at)
    case LegsReady(c) => sys.With(c, s.(phase := Bridging(s.phase.ext), wired := true))
    case BridgeUp(c) =>
      System(ConnectMarked(sys.queue, c, s.phase.ext), sys.sessions[c := s.(phase := Talking(s.phase.ext))])
    case BridgeFails(c, online) => TurnedDown(sys, c, s, online, at)
    case HangUp(c, online) =>
      if s.wired then Gone(sys, c, s, online, at)
      else sys.With(c, s.(abandoned := true))
    case TimeUp(c) => sys.With(c, s.(phase := SayingGoodbye))
    case Leave(c, online) => Gone(sys, c, s.(phase := Finished), online, at)
  }

  function Step(sys: System, e: Event, at: int): System {
    if !Possible(sys, e) then sys
    else
      match e
      case Presence(online) => sys.(queue := Synced(sys.queue, online, at))
      case Pause(ext, paused, online) => sys.(queue := PauseSet(sys.queue, ext, paused, online, at))
      case Arrive(c) => System(Enqueued(sys.queue, c, at), sys.sessions[c := NEWCOMER])
      case _ => SessionStep(sys, e, sys.sessions[e.c], at)
  }

  ghost function After(q: Queue, run: Run<Timed<Event>>): System {
    match run
    case Start => System(q, map[])
    case Then(before, t) => Step(After(q, before), t.event, t.at)
  }

  // ----- what every session and the queue agree on -----

  ghost predicate SessionMatches(q: Queue, c: string, s: Session) {
    if s.ended then c !in q.callers
    else
      && c in q.callers && !s.phase.Finished?
      && (s.phase.OnAgent() ==> q.callers[c].state.RingingOn? && q.callers[c].agent == Some(s.phase.ext))
      && (s.phase.Talking? ==> q.callers[c].state.ConnectedTo? && q.callers[c].agent == Some(s.phase.ext))
      && (s.phase.Greeting? || s.phase.Hunting? || s.phase.SayingGoodbye? ==>
            q.callers[c].state.WaitingFor? && q.callers[c].agent.None?)
  }

  /** The queue is in correspondence, its callers have sessions, and no agent's extension is empty. */
  ghost predicate Inv(sys: System) {
    && Valid(sys.queue) && Protocol.Corresponds(sys.queue) && "" !in sys.queue.agents
    && sys.queue.callers.Keys <= sys.sessions.Keys
    && forall c :: c in sys.sessions ==> SessionMatches(sys.queue, c, sys.sessions[c])
  }

  ghost predicate Overreaches(sys: System, c: string)
    requires c in sys.sessions && sys.sessions[c].phase.OnAgent()
  {
    && sys.sessions[c].ended
    && sys.sessions[c].phase.ext in sys.queue.agents
    && sys.queue.agents[sys.sessions[c].phase.ext].state.Ringing?
  }

  /**
   * The exact condition under which a step keeps the correspondence: presence
   * takes no engaged agent away, and a session whose caller has already been
   * dequeued does not release an agent that is ringing for somebody else.
   */
  ghost predicate Careful(sys: System, e: Event) {
    match e
    case Presence(online) => Protocol.Orderly(sys.queue, Protocol.Sync(online))
    case AgentSilent(c, _) => Possible(sys, e) && !sys.sessions[c].abandoned ==> !Overreaches(sys, c)
    case BridgeFails(c, _) => Possible(sys, e) ==> !Overreaches(sys, c)
    case _ => true
  }

  /** A step on the queue for `c` that leaves the other callers alone. */
  lemma Touched(sys: System, sys': System, c: string)
    requires Inv(sys) && Valid(sys'.queue) && Protocol.Corresponds(sys'.queue)
    requires sys'.queue.agents.Keys == sys.queue.agents.Keys
    requires c in sys'.sessions && sys'.sessions == sys.sessions[c := sys'.sessions[c]]
    requires forall d :: d != c ==> (d in sys'.queue.callers <==> d in sys.queue.callers)
    requires forall d :: d != c && d in sys.queue.callers ==> sys'.queue.callers[d] == sys.queue.callers[d]
    requires SessionMatches(sys'.queue, c, sys'.sessions[c])
    ensures Inv(sys')
  {
    forall d | d in sys'.sessions ensures SessionMatches(sys'.queue, d, sys'.sessions[d]) {
      assert d != c ==> SessionMatches(sys.queue, d, sys.sessions[d]);
    }
  }

  lemma ArriveKeeps(sys: System, c: string, at: int)
    requires Inv(sys) && c !in sys.sessions
    ensures Inv(System(Enqueued(sys.queue, c, at), sys.sessions[c := NEWCOMER]))
  {
    var q' := Enqueued(sys.queue, c, at);
    Protocol.EnqueueIff(sys.queue, c, at);
    Touched(sys, System(q', sys.sessions[c := NEWCOMER]), c);
  }

  lemma GoneKeeps(sys: System, c: string, s: Session, online: set<string>, at: int)
    requires Inv(sys) && c in sys.sessions
    ensures Inv(Gone(sys, c, s, online, at))
  {
    assert c in sys.queue.callers ==> Protocol.CallerMatches(sys.queue, c);
    Protocol.DequeueIff(sys.queue, c, online, at);
    Touched(sys, Gone(sys, c, s, online, at), c);
  }

  lemma RingKeeps(sys: System, c: string, ext: string)
    requires Inv(sys) && c in sys.sessions && sys.sessions[c].phase.Hunting? && Eligible(sys.queue, ext, {})
    ensures Inv(System(RingMarked(sys.queue, c, ext), sys.sessions[c := sys.sessions[c].(phase := Offering(ext))]))
  {
    var s := sys.sessions[c];
    assert SessionMatches(sys.queue, c, s);
    Protocol.RingIff(sys.queue, c, ext);
    Touched(sys, System(RingMarked(sys.queue, c, ext), sys.sessions[c := s.(phase := Offering(ext))]), c);
  }

  lemma EnvironmentIff(sys: System, q': Queue)
    requires Inv(sys) && Valid(q') && q'.callers == sys.queue.callers && q'.agents.Keys == sys.queue.agents.Keys
    ensures Inv(sys.(queue := q')) <==> Protocol.Corresponds(q')
  {
    forall c | c in sys.sessions ensures SessionMatches(q', c, sys.sessions[c]) {
      assert SessionMatches(sys.queue, c, sys.sessions[c]);
    }
  }

  /** Moving the cursor does not matter to the correspondence. */
  lemma CursorMoves(q: Queue, q': Queue)
    requires Protocol.Corresponds(q) && q' == q.(rrCursor := q'.rrCursor)
    ensures Protocol.Corresponds(q')
  {
    forall c | c in q'.callers ensures Protocol.CallerMatches(q', c) {
      assert Protocol.CallerMatches(q, c);
    }
    forall ext | ext in q'.agents && q'.agents[ext].Engaged() ensures Protocol.Held(q', ext) {
      var c :| Holds(q, c, ext);
      assert Holds(q', c, ext);
    }
  }

  lemma OfferedKeeps(sys: System, c: string, reachable: set<string>)
    requires Inv(sys) && c in sys.sessions && sys.sessions[c].phase.Hunting?
    ensures Inv(Offered(sys, c, sys.sessions[c], reachable))
  {
    HuntIsComplete(sys.queue, reachable);
    var found := Hunted(sys.queue, reachable, {}, |sys.queue.agents|);
    CursorMoves(sys.queue, found.queue);
    EnvironmentIff(sys, found.queue);
    if found.agent.Some? {
      RingKeeps(sys.(queue := found.queue), c, found.agent.value);
    }
  }

  lemma TurnedDownIff(sys: System, c: string, online: set<string>, at: int)
    requires Inv(sys) && c in sys.sessions && sys.sessions[c].phase.OnAgent()
    ensures var sys' := TurnedDown(sys, c, sys.sessions[c], online, at);
      && (!Overreaches(sys, c) ==> Inv(sys'))
      && (Overreaches(sys, c) ==> !Protocol.Corresponds(sys'.queue))
  {
    var s := sys.sessions[c];
    assert SessionMatches(sys.queue, c, s);
    Protocol.ReleaseIff(sys.queue, c, s.phase.ext, online, at);
    if !Overreaches(sys, c) {
      Touched(sys, TurnedDown(sys, c, s, online, at), c);
    }
  }

  lemma BridgeUpKeeps(sys: System, c: string)
    requires Inv(sys) && c in sys.sessions && sys.sessions[c].phase.Bridging?
    ensures var ext := sys.sessions[c].phase.ext;
      Inv(System(ConnectMarked(sys.queue, c, ext), sys.sessions[c := sys.sessions[c].(phase := Talking(ext))]))
  {
    var s := sys.sessions[c];
    var ext := s.phase.ext;
    assert SessionMatches(sys.queue, c, s);
    assert c in sys.queue.callers ==> Protocol.CallerMatches(sys.queue, c);
    Protocol.ConnectIff(sys.queue, c, ext);
    Touched(sys, System(ConnectMarked(sys.queue, c, ext), sys.sessions[c := s.(phase := Talking(ext))]), c);
  }

  /** A step inside the session that does not touch the queue. */
  lemma MovedOn(sys: System, c: string, s': Session)
    requires Inv(sys) && c in sys.sessions && SessionMatches(sys.queue, c, s')
    ensures Inv(sys.With(c, s'))
  {
    Touched(sys, sys.With(c, s'), c);
  }

  lemma PresenceIff(sys: System, online: set<string>, at: int)
    requires Inv(sys)
    ensures var sys' := sys.(queue := Synced(sys.queue, online, at));
      && (Careful(sys, Presence(online)) ==> Inv(sys'))
      && (!Careful(sys, Presence(online)) ==> !Protocol.Corresponds(sys'.queue))
  {
    Protocol.SyncIff(sys.queue, online, at);
    Protocol.StepValid(sys.queue, Protocol.Sync(online), at);
    EnvironmentIff(sys, Synced(sys.queue, online, at));
  }

  lemma PauseKeeps(sys: System, ext: string, paused: bool, online: set<string>, at: int)
    requires Inv(sys)
    ensures Inv(sys.(queue := PauseSet(sys.queue, ext, paused, online, at)))
  {
    Protocol.PauseKeeps(sys.queue, ext, paused, online, at);
    EnvironmentIff(sys, PauseSet(sys.queue, ext, paused, online, at));
  }

  lemma SessionStepIff(sys: System, e: Event, at: int)
    requires Inv(sys) && !e.Presence? && !e.Pause? && !e.Arrive? && Possible(sys, e)
    ensures var sys' := SessionStep(sys, e, sys.sessions[e.c], at);
      && (Careful(sys, e) ==> Inv(sys'))
      && (!Careful(sys, e) ==> !Protocol.Corresponds(sys'.queue))
  {
    var s := sys.sessions[e.c];
    assert SessionMatches(sys.queue, e.c, s);
    match e
    case Greeted(c) => MovedOn(sys, c, s.(phase := Hunting));
    case Fail(c, online) => GoneKeeps(sys, c, s.(phase := Finished), online, at);
    case Hunt(c, reachable) => OfferedKeeps(sys, c, reachable);
    case EndpointUp(c) => MovedOn(sys, c, s.(phase := RingingAgent(s.phase.ext)));
    case AgentAnswers(c, online) =>
      if s.abandoned {
        GoneKeeps(sys, c, s.(phase := Finished), online, at);
      } else {
        MovedOn(sys, c, s.(phase := Joining(s.phase.ext)));
      }
    case AgentSilent(c, online) =>
      if s.abandoned {
        GoneKeeps(sys, c, s.(phase := Finished), online, at);
      } else {
        TurnedDownIff(sys, c, online, at);
      }
    case LegsReady(c) => MovedOn(sys, c, s.(phase := Bridging(s.phase.ext), wired := true));
    case BridgeUp(c) => BridgeUpKeeps(sys, c);
    case BridgeFails(c, online) => TurnedDownIff(sys, c, online, at);
    case HangUp(c, online) =>
      if s.wired {
        GoneKeeps(sys, c, s, online, at);
      } else {
        MovedOn(sys, c, s.(abandoned := true));
      }
    case TimeUp(c) => MovedOn(sys, c, s.(phase := SayingGoodbye));
    case Leave(c, online) => GoneKeeps(sys, c, s.(phase := Finished), online, at);
  }

  /** A step keeps the system's invariant if it is careful, and breaks the correspondence if it is not. */
  lemma StepKeepsIffCareful(sys: System, e: Event, at: int)
    requires Inv(sys)
    ensures Careful(sys, e) ==> Inv(Step(sys, e, at))
    ensures !Careful(sys, e) ==> !Protocol.Corresponds(Step(sys, e, at).queue)
  {
    if Possible(sys, e) {
      match e
      case Presence(online) => PresenceIff(sys, online, at);
      case Pause(ext, paused, online) => PauseKeeps(sys, ext, paused, online, at);
      case Arrive(c) => ArriveKeeps(sys, c, at);
      case _ => SessionStepIff(sys, e, at);
    }
  }

  /**
   * A caller who hung up while an agent rang is gone for good however the ring
   * ends, and the agent is free again, to be chosen at once if it is registered
   * and not paused.
   */
  lemma RingOfAbandonedCallEnds(sys: System, e: Event, at: int)
    requires Inv(sys) && (e.AgentAnswers? || e.AgentSilent?) && Possible(sys, e)
    requires sys.sessions[e.c].abandoned && !sys.sessions[e.c].ended
    ensures var sys', ext := Step(sys, e, at), sys.sessions[e.c].phase.ext;
      && sys'.sessions[e.c].phase.Finished? && e.c !in sys'.queue.callers
      && ext in sys'.queue.agents && !sys'.queue.agents[ext].Engaged()
      && (Eligible(sys'.queue, ext, {}) <==> ext in e.online && !sys.queue.agents[ext].paused)
  {
    assert SessionMatches(sys.queue, e.c, sys.sessions[e.c]);
    assert Protocol.CallerMatches(sys.queue, e.c);
  }

  // ----- whole runs -----

  ghost predicate CarefulRun(q: Queue, run: Run<Timed<Event>>) {
    run.Then? ==> CarefulRun(q, run.before) && Careful(After(q, run.before), run.last.event)
  }

  /** However many callers there are and however their sessions interleave, careful runs keep the correspondence. */
  lemma {:induction false} SessionsKeepCorrespondence(q: Queue, run: Run<Timed<Event>>)
    requires Valid(q) && Protocol.Fresh(q) && "" !in q.agents && CarefulRun(q, run)
    ensures Inv(After(q, run))
  {
    if run.Then? {
      SessionsKeepCorrespondence(q, run.before);
      StepKeepsIffCareful(After(q, run.before), run.last.event, run.last.at);
    }
  }

  // ----- a condition on what happens, not on the state of the queue -----

  /**
   * No bridge fails after one of its legs has hung up, and nobody hangs up
   * between a failed bridge and the next one.
   */
  ghost predicate Prompt(sys: System, e: Event) {
    && (e.BridgeFails? && e.c in sys.sessions ==> !sys.sessions[e.c].ended)
    && (e.HangUp? && e.c in sys.sessions && sys.sessions[e.c].wired ==>
          sys.sessions[e.c].phase.Bridging? || sys.sessions[e.c].phase.Talking?)
  }

  /** All events are prompt, and presence takes no engaged agent away. */
  ghost predicate PromptRun(q: Queue, run: Run<Timed<Event>>) {
    run.Then? ==>
      && PromptRun(q, run.before)
      && var sys, e := After(q, run.before), run.last.event;
         Prompt(sys, e) && (e.Presence? ==> Protocol.Orderly(sys.queue, Protocol.Sync(e.online)))
  }

  /** Sessions whose caller has been dequeued hunt for no more agents. */
  ghost predicate NoGhosts(sys: System) {
    forall c :: c in sys.sessions && sys.sessions[c].ended ==>
      var phase := sys.sessions[c].phase; phase.Bridging? || phase.Talking? || phase.Finished?
  }

  lemma NoGhostsStep(sys: System, e: Event, at: int)
    requires NoGhosts(sys) && Prompt(sys, e)
    ensures NoGhosts(Step(sys, e, at))
  {
  }

  lemma {:induction false} NoGhostsAlways(q: Queue, run: Run<Timed<Event>>)
    requires PromptRun(q, run)
    ensures NoGhosts(After(q, run))
  {
    if run.Then? {
      NoGhostsAlways(q, run.before);
      NoGhostsStep(After(q, run.before), run.last.event, run.last.at);
    }
  }

  lemma {:induction false} PromptIsCareful(q: Queue, run: Run<Timed<Event>>)
    requires PromptRun(q, run)
    ensures CarefulRun(q, run)
  {
    if run.Then? {
      PromptIsCareful(q, run.before);
      NoGhostsAlways(q, run.before);
    }
  }

  /**
   * The correspondence in every state of every run of any number of sessions in
   * which hang-ups and bridge failures do not cross and no engaged agent drops out.
   */
  lemma QueueStaysInCorrespondence(q: Queue, run: Run<Timed<Event>>)
    requires Valid(q) && Protocol.Fresh(q) && "" !in q.agents && PromptRun(q, run)
    ensures Protocol.Corresponds(After(q, run).queue)
    ensures After(q, run).queue.callers.Keys <= After(q, run).sessions.Keys
  {
    PromptIsCareful(q, run);
    SessionsKeepCorrespondence(q, run);
  }

  lemma FreedByHangUp(sys: System, c: string, online: set<string>, at: int)
    requires Inv(sys) && c in sys.sessions
    requires sys.sessions[c].phase.Bridging? && sys.sessions[c].wired && !sys.sessions[c].ended
    requires var ext := sys.sessions[c].phase.ext;
      ext in online && ext in sys.queue.agents && !sys.queue.agents[ext].paused
    ensures var hungUp := Step(sys, HangUp(c, online), at);
      && Inv(hungUp)
      && hungUp.sessions == sys.sessions[c := sys.sessions[c].(ended := true)]
      && Eligible(hungUp.queue, sys.sessions[c].phase.ext, {})
  {
    assert SessionMatches(sys.queue, c, sys.sessions[c]);
    assert Protocol.CallerMatches(sys.queue, c);
    GoneKeeps(sys, c, sys.sessions[c], online, at);
  }

  lemma RungForNext(sys: System, d: string, ext: string, at: int)
    requires Inv(sys) && d in sys.sessions && sys.sessions[d] == WAITING
    requires Eligible(sys.queue, ext, {})
    ensures var rung := Step(sys, Hunt(d, {ext}), at);
      && Inv(rung)
      && rung.sessions == sys.sessions[d := sys.sessions[d].(phase := Offering(ext))]
      && ext in rung.queue.agents && rung.queue.agents[ext] == sys.queue.agents[ext].(state := Ringing)
  {
    assert SessionMatches(sys.queue, d, sys.sessions[d]);
    HuntIsComplete(sys.queue, {ext});
    OfferedKeeps(sys, d, {ext});
  }

  lemma LateReleaseBreaks(sys: System, c: string, online: set<string>, at: int)
    requires Inv(sys) && c in sys.sessions && sys.sessions[c].phase.Bridging? && Overreaches(sys, c)
    ensures !Protocol.Corresponds(Step(sys, BridgeFails(c, online), at).queue)
  {
    TurnedDownIff(sys, c, online, at);
  }

  /**
   * When they do cross: the caller hangs up while its bridge is being made, the
   * freed agent is rung for the next caller, and the failing bridge then
   * releases the agent under that caller.
   */
  lemma LateFailureBreaks(sys: System, c: string, d: string, online: set<string>, at: int)
    requires Inv(sys) && c in sys.sessions && d in sys.sessions
    requires sys.sessions[c].phase.Bridging? && sys.sessions[c].wired && !sys.sessions[c].ended
    requires sys.sessions[d] == WAITING
    requires var ext := sys.sessions[c].phase.ext;
      ext in online && ext in sys.queue.agents && !sys.queue.agents[ext].paused
    ensures var hungUp := Step(sys, HangUp(c, online), at);
      var rung := Step(hungUp, Hunt(d, {sys.sessions[c].phase.ext}), at);
      && Inv(rung)
      && !Protocol.Corresponds(Step(rung, BridgeFails(c, online), at).queue)
  {
    FreedByHangUp(sys, c, online, at);
    var hungUp := Step(sys, HangUp(c, online), at);
    RungForNext(hungUp, d, sys.sessions[c].phase.ext, at);
    LateReleaseBreaks(Step(hungUp, Hunt(d, {sys.sessions[c].phase.ext}), at), c, online, at);
  }

  // ----- such a state is reached from every fresh queue -----

  /** The agent can be rung, and will not turn out to be paused when it is freed. */
  ghost predicate Ready(q: Queue, ext: string) {
    Eligible(q, ext, {}) && !q.agents[ext].paused
  }

  ghost predicate IsAt(sys: System, c: string, s: Session) {
    c in sys.sessions && sys.sessions[c] == s
  }

  lemma Registers(q: Queue, ext: string) returns (run: Run<Timed<Event>>)
    requires Valid(q) && Protocol.Fresh(q) && "" !in q.agents && ext in q.agents
    ensures CarefulRun(q, run) && Inv(After(q, run)) && After(q, run).sessions == map[] && Ready(After(q, run).queue, ext)
  {
    var sys := System(q, map[]);
    PresenceIff(sys, {ext}, 0);
    run := Then(Start, Timed(Presence({ext}), 0));
    assert After(q, Start) == sys;
    assert After(q, run) == sys.(queue := Synced(q, {ext}, 0));
  }

  lemma ArriveThenGreet(sys: System, c: string)
    requires Inv(sys) && c !in sys.sessions
    ensures var arrived := Step(sys, Arrive(c), 0);
      var greeted := Step(arrived, Greeted(c), 0);
      Inv(greeted) && greeted.sessions == sys.sessions[c := WAITING] && greeted.queue.agents == sys.queue.agents
  {
    ArriveKeeps(sys, c, 0);
    var arrived := Step(sys, Arrive(c), 0);
    MovedOn(arrived, c, WAITING);
  }

  lemma Joins(q: Queue, before: Run<Timed<Event>>, c: string, ext: string) returns (run: Run<Timed<Event>>)
    requires CarefulRun(q, before) && Inv(After(q, before)) && c !in After(q, before).sessions
    requires Ready(After(q, before).queue, ext)
    ensures CarefulRun(q, run) && Inv(After(q, run)) && Ready(After(q, run).queue, ext)
    ensures After(q, run).sessions == After(q, before).sessions[c := WAITING]
  {
    ArriveThenGreet(After(q, before), c);
    var arrived := Then(before, Timed(Arrive(c), 0));
    run := Then(arrived, Timed(Greeted(c), 0));
    assert CarefulRun(q, arrived) && After(q, arrived) == Step(After(q, before), Arrive(c), 0);
  }

  lemma AnsweredAndWired(sys: System, c: string, ext: string)
    requires Inv(sys) && c in sys.sessions && sys.sessions[c] == WAITING.(phase := Offering(ext))
    ensures var ringing := Step(sys, EndpointUp(c), 0);
      var answered := Step(ringing, AgentAnswers(c, {ext}), 0);
      var wired := Step(answered, LegsReady(c), 0);
      && Inv(wired) && wired.queue == sys.queue
      && wired.sessions == sys.sessions[c := Session(Bridging(ext), true, false, false)]
  {
    var s := sys.sessions[c];
    assert SessionMatches(sys.queue, c, s);
    var ringing := sys.With(c, s.(phase := RingingAgent(ext)));
    assert Step(sys, EndpointUp(c), 0) == ringing;
    MovedOn(sys, c, s.(phase := RingingAgent(ext)));
    var answered := ringing.With(c, s.(phase := Joining(ext)));
    assert Step(ringing, AgentAnswers(c, {ext}), 0) == answered;
    MovedOn(ringing, c, s.(phase := Joining(ext)));
    MovedOn(answered, c, s.(phase := Bridging(ext), wired := true));
    assert Step(answered, LegsReady(c), 0) == answered.With(c, s.(phase := Bridging(ext), wired := true));
  }

  lemma IsRung(q: Queue, before: Run<Timed<Event>>, c: string, ext: string) returns (run: Run<Timed<Event>>)
    requires CarefulRun(q, before) && Inv(After(q, before)) && Ready(After(q, before).queue, ext)
    requires c in After(q, before).sessions && After(q, before).sessions[c] == WAITING
    ensures CarefulRun(q, run) && Inv(After(q, run))
    ensures ext in After(q, run).queue.agents && !After(q, run).queue.agents[ext].paused
    ensures After(q, run).sessions == After(q, before).sessions[c := WAITING.(phase := Offering(ext))]
  {
    RungForNext(After(q, before), c, ext, 0);
    run := Then(before, Timed(Hunt(c, {ext}), 0));
  }

  lemma GetsWired(q: Queue, before: Run<Timed<Event>>, c: string, ext: string) returns (run: Run<Timed<Event>>)
    requires CarefulRun(q, before) && Inv(After(q, before))
    requires c in After(q, before).sessions && After(q, before).sessions[c] == WAITING.(phase := Offering(ext))
    ensures CarefulRun(q, run) && Inv(After(q, run)) && After(q, run).queue == After(q, before).queue
    ensures After(q, run).sessions == After(q, before).sessions[c := Session(Bridging(ext), true, false, false)]
  {
    AnsweredAndWired(After(q, before), c, ext);
    var ringing := Then(before, Timed(EndpointUp(c), 0));
    assert CarefulRun(q, ringing) && After(q, ringing) == Step(After(q, before), EndpointUp(c), 0);
    var answered := Then(ringing, Timed(AgentAnswers(c, {ext}), 0));
    assert CarefulRun(q, answered) && After(q, answered) == Step(After(q, ringing), AgentAnswers(c, {ext}), 0);
    run := Then(answered, Timed(LegsReady(c), 0));
  }

  lemma FailsLate(q: Queue, before: Run<Timed<Event>>, c: string, d: string, ext: string)
    returns (run: Run<Timed<Event>>)
    requires CarefulRun(q, before) && Inv(After(q, before)) && c != d
    requires IsAt(After(q, before), c, Session(Bridging(ext), true, false, false)) && IsAt(After(q, before), d, WAITING)
    requires ext in After(q, before).queue.agents && !After(q, before).queue.agents[ext].paused
    ensures run.Then? && run.last.event == BridgeFails(c, {ext}) && CarefulRun(q, run.before)
    ensures !Protocol.Corresponds(After(q, run).queue)
  {
    LateFailureBreaks(After(q, before), c, d, {ext}, 0);
    var hungUp := Then(before, Timed(HangUp(c, {ext}), 0));
    assert CarefulRun(q, hungUp) && After(q, hungUp) == Step(After(q, before), HangUp(c, {ext}), 0);
    var rung := Then(hungUp, Timed(Hunt(d, {ext}), 0));
    assert CarefulRun(q, rung) && After(q, rung) == Step(After(q, hungUp), Hunt(d, {ext}), 0);
    run := Then(rung, Timed(BridgeFails(c, {ext}), 0));
  }

  lemma BothWait(q: Queue, c: string, d: string, ext: string) returns (run: Run<Timed<Event>>)
    requires Valid(q) && Protocol.Fresh(q) && "" !in q.agents && ext in q.agents && c != d
    ensures CarefulRun(q, run) && Inv(After(q, run)) && Ready(After(q, run).queue, ext)
    ensures IsAt(After(q, run), c, WAITING) && IsAt(After(q, run), d, WAITING)
  {
    var registered := Registers(q, ext);
    var one := Joins(q, registered, c, ext);
    run := Joins(q, one, d, ext);
  }

  lemma IsBeingBridged(q: Queue, before: Run<Timed<Event>>, c: string, d: string, ext: string)
    returns (run: Run<Timed<Event>>)
    requires CarefulRun(q, before) && Inv(After(q, before)) && Ready(After(q, before).queue, ext) && c != d
    requires IsAt(After(q, before), c, WAITING) && IsAt(After(q, before), d, WAITING)
    ensures CarefulRun(q, run) && Inv(After(q, run))
    ensures IsAt(After(q, run), c, Session(Bridging(ext), true, false, false)) && IsAt(After(q, run), d, WAITING)
    ensures ext in After(q, run).queue.agents && !After(q, run).queue.agents[ext].paused
  {
    var rung := IsRung(q, before, c, ext);
    run := GetsWired(q, rung, c, ext);
  }

  /**
   * It does happen: for every fresh queue with an agent and any two callers there
   * is a run that is careful up to its last event, a bridge that fails after its
   * caller hung up, and that loses the correspondence with this event.
   */
  lemma LateFailureHappens(q: Queue, c: string, d: string, ext: string) returns (run: Run<Timed<Event>>)
    requires Valid(q) && Protocol.Fresh(q) && "" !in q.agents && ext in q.agents && c != d
    ensures run.Then? && run.last.event == BridgeFails(c, {ext}) && CarefulRun(q, run.before)
    ensures !Protocol.Corresponds(After(q, run).queue)
  {
    var both := BothWait(q, c, d, ext);
    var bridging := IsBeingBridged(q, both, c, d, ext);
    run := FailsLate(q, bridging, c, d, ext);
  }

  /** Once every session is over, nobody waits and no agent is left ringing or busy. */
  lemma NobodyLeftBehind(q: Queue, run: Run<Timed<Event>>)
    requires Valid(q) && Protocol.Fresh(q) && "" !in q.agents && CarefulRun(q, run)
    requires forall c :: c in After(q, run).sessions ==> After(q, run).sessions[c].ended
    ensures After(q, run).queue.callers == map[]
    ensures forall ext :: ext in After(q, run).queue.agents ==> !After(q, run).queue.agents[ext].Engaged()
  {
    SessionsKeepCorrespondence(q, run);
    var sys := After(q, run);
    forall c ensures c !in sys.queue.callers {
      assert c in sys.sessions ==> SessionMatches(sys.queue, c, sys.sessions[c]);
    }
    forall ext | ext in sys.queue.agents ensures !sys.queue.agents[ext].Engaged() {
      if sys.queue.agents[ext].Engaged() {
        assert false;
      }
    }
  }
}
