/**
 * What an agent's record says is what has happened to it. Over every run of a
 * queue, in order or not, the pause flag, the state of an agent that is on no
 * call, the number of calls it handled and a caller's time of arrival are read
 * off the events and compared with what the service stores.
 */
module QueuePresence {
  import opened Common
  import opened CallQueue
  import opened QueueCorrespondence

  /** The value the agent's pause flag was last set to. */
  ghost function PauseAsked(run: Run<Timed<Event>>, ext: string): bool {
    match run
    case Start => false
    case Then(before, Timed(Pause(who, paused, _), _)) => if who == ext then paused else PauseAsked(before, ext)
    case Then(before, _) => PauseAsked(before, ext)
  }

  /**
   * The events that look up the agent's registration: every presence update, the
   * end of its ring, the departure of the caller it serves, and a change of its
   * pause flag while it is on no call.
   */
  ghost predicate Consults(q: Queue, e: Event, ext: string) {
    && ext in q.agents
    && match e
       case Sync(_) => true
       case Release(_, who, _) => who == ext && q.agents[ext].state.Ringing?
       case Dequeue(c, _) => ext != "" && Holds(q, c, ext) && (q.agents[ext].state.Ringing? || q.agents[ext].state.Busy?)
       case Pause(who, paused, _) =>
         who == ext && q.agents[ext].paused != paused && !q.agents[ext].state.Ringing? && !q.agents[ext].state.Busy?
       case _ => false
  }

  /** Whether the agent was registered when that was last looked up. */
  ghost function LastKnown(q: Queue, run: Run<Timed<Event>>, ext: string): bool {
    match run
    case Start => false
    case Then(before, t) =>
      if Consults(After(q, before), t.event, ext) then ext in t.event.online else LastKnown(q, before, ext)
  }

  /** The state of an agent that is neither ringing nor busy. */
  ghost function IdleState(registered: bool, paused: bool): AgentState {
    if !registered then Offline else if paused then Paused else Available
  }

  ghost predicate InState(agent: Agent, registered: bool, paused: bool) {
    && agent.paused == paused
    && (!agent.state.Ringing? && !agent.state.Busy? ==> agent.state == IdleState(registered, paused))
  }

  lemma InStateStep(q: Queue, t: Timed<Event>, ext: string, registered: bool)
    requires ext in q.agents && InState(q.agents[ext], registered, q.agents[ext].paused)
    ensures var q' := Step(q, t.event, t.at);
      var registered' := if Consults(q, t.event, ext) then ext in t.event.online else registered;
      var paused' := if t.event.Pause? && t.event.ext == ext then t.event.paused else q.agents[ext].paused;
      ext in q'.agents && InState(q'.agents[ext], registered', paused')
  {
  }

  /**
   * On every run an agent's pause flag is the one last asked for, and an agent on
   * no call is offline, paused or available as its last known registration and
   * that flag say.
   */
  lemma {:induction false} IdleStateIsTrue(q: Queue, run: Run<Timed<Event>>, ext: string)
    requires Fresh(q) && ext in q.agents
    ensures ext in After(q, run).agents
    ensures InState(After(q, run).agents[ext], LastKnown(q, run, ext), PauseAsked(run, ext))
  {
    if run.Then? {
      IdleStateIsTrue(q, run.before, ext);
      InStateStep(After(q, run.before), run.last, ext, LastKnown(q, run.before, ext));
    }
  }

  ghost predicate OnCall(q: Queue, ext: string) {
    ext in q.agents && (q.agents[ext].state.Ringing? || q.agents[ext].state.Busy?)
  }

  /** Who can be chosen: exactly the agents on no call that are registered, not paused and not excluded. */
  lemma EligibleIff(q: Queue, run: Run<Timed<Event>>, ext: string, exclude: set<string>)
    requires Fresh(q) && ext in q.agents
    ensures Eligible(After(q, run), ext, exclude) <==>
      !OnCall(After(q, run), ext) && LastKnown(q, run, ext) && !PauseAsked(run, ext) && ext !in exclude
  {
    IdleStateIsTrue(q, run, ext);
  }

  lemma AgentsFixedStep(q: Queue, t: Timed<Event>)
    ensures Step(q, t.event, t.at).agents.Keys == q.agents.Keys
  {
  }

  lemma {:induction false} AgentsFixed(q: Queue, run: Run<Timed<Event>>)
    ensures After(q, run).agents.Keys == q.agents.Keys
  {
    if run.Then? {
      AgentsFixed(q, run.before);
      AgentsFixedStep(After(q, run.before), run.last);
    }
  }

  lemma FreedIsOnNoCall(q: Queue, t: Timed<Event>, ext: string)
    requires (t.event.Release? || t.event.Dequeue?) && Consults(q, t.event, ext)
    ensures var q' := Step(q, t.event, t.at);
      ext in q'.agents && !OnCall(q', ext)
  {
  }

  /**
   * An agent that did not answer, and one whose caller has left, can be chosen
   * again at once if and only if it is registered and not paused.
   */
  lemma FreedAgentIsEligibleIff(q: Queue, run: Run<Timed<Event>>, t: Timed<Event>, ext: string)
    requires Fresh(q) && (t.event.Release? || t.event.Dequeue?) && Consults(After(q, run), t.event, ext)
    ensures Eligible(After(q, Then(run, t)), ext, {}) <==> ext in t.event.online && !PauseAsked(run, ext)
  {
    AgentsFixed(q, run);
    var next := Then(run, t);
    EligibleIff(q, next, ext, {});
    FreedIsOnNoCall(After(q, run), t, ext);
    assert After(q, next) == Step(After(q, run), t.event, t.at);
    assert LastKnown(q, next, ext) <==> ext in t.event.online;
    assert PauseAsked(next, ext) == PauseAsked(run, ext);
  }

  // ----- counters and times -----

  /** How many callers of the queue have been connected to the agent. */
  ghost function Connections(q: Queue, run: Run<Timed<Event>>, ext: string): nat {
    match run
    case Start => 0
    case Then(before, Timed(Connect(c, who), _)) =>
      Connections(q, before, ext) + (if who == ext && c in After(q, before).callers then 1 else 0)
    case Then(before, _) => Connections(q, before, ext)
  }

  /** When the caller was last put into the queue. */
  ghost function ArrivedAt(run: Run<Timed<Event>>, c: string): Option<int> {
    match run
    case Start => None
    case Then(before, Timed(Enqueue(who), at)) => if who == c then Some(at) else ArrivedAt(before, c)
    case Then(before, _) => ArrivedAt(before, c)
  }

  lemma CountersStep(q: Queue, t: Timed<Event>, ext: string, c: string)
    ensures var q' := Step(q, t.event, t.at);
      var more := if t.event.Connect? && t.event.ext == ext && t.event.callId in q.callers then 1 else 0;
      && (ext in q.agents ==> ext in q'.agents && q'.agents[ext].callsHandled == q.agents[ext].callsHandled + more)
      && (c in q'.callers ==>
            if t.event == Enqueue(c) then q'.callers[c].enqueuedAt == t.at
            else c in q.callers && q'.callers[c].enqueuedAt == q.callers[c].enqueuedAt)
  {
  }

  /** Calls handled are the connections made, and a caller's arrival is the one stored. */
  lemma {:induction false} CountersAreTrue(q: Queue, run: Run<Timed<Event>>, ext: string, c: string)
    requires Fresh(q) && ext in q.agents
    ensures ext in After(q, run).agents
    ensures After(q, run).agents[ext].callsHandled == q.agents[ext].callsHandled + Connections(q, run, ext)
    ensures c in After(q, run).callers ==> ArrivedAt(run, c) == Some(After(q, run).callers[c].enqueuedAt)
  {
    if run.Then? {
      CountersAreTrue(q, run.before, ext, c);
      CountersStep(After(q, run.before), run.last, ext, c);
    }
  }
}
