/**
 * Call queues (ACD): agents with presence, pause and busy states, callers that
 * wait, ring an agent and get connected, and three policies for picking the
 * next agent. One `Queue` value per queue; the service holds a map of them.
 */
module CallQueue {
  import opened Common

  datatype AgentState = Offline | Available | Ringing | Busy | Paused

  datatype Agent = Agent(state: AgentState, paused: bool, idleSince: int, callsHandled: nat) {
    /** Being offered a caller, or talking to one. */
    predicate Engaged() {
      state.Ringing? || state.Busy?
    }
  }

  datatype CallerState = WaitingFor | RingingOn | ConnectedTo

  datatype Caller = Caller(state: CallerState, agent: Option<string>, enqueuedAt: int)

  datatype Strategy = LongestIdle | RoundRobin | Sequential

  /** `roster` is the insertion order of the agent map. */
  datatype Queue = Queue(
    strategy: Strategy,
    roster: seq<string>,
    agents: map<string, Agent>,
    callers: map<string, Caller>,
    rrCursor: nat)

  /** The roster lists every agent once, and the cursor points into it. */
  ghost predicate Valid(q: Queue) {
    && (forall i, j :: 0 <= i < j < |q.roster| ==> q.roster[i] != q.roster[j])
    && (forall i :: 0 <= i < |q.roster| ==> q.roster[i] in q.agents)
    && (forall ext :: ext in q.agents ==> ext in q.roster)
    && (q.roster != [] ==> q.rrCursor < |q.roster|)
  }

  /** The names in the order in which each is first listed. */
  function FirstOccurrences(names: seq<string>): seq<string> {
    if names == [] then []
    else
      var firsts := FirstOccurrences(names[..|names| - 1]);
      if names[|names| - 1] in firsts then firsts else firsts + [names[|names| - 1]]
  }

  lemma {:induction false} SameNames(names: seq<string>, x: string)
    ensures x in FirstOccurrences(names) <==> x in names
  {
    if names != [] {
      SameNames(names[..|names| - 1], x);
    }
  }

  /** One more name is appended exactly when it has not been listed before. */
  lemma FirstOccurrencesAre(names: seq<string>, x: string)
    ensures FirstOccurrences(names + [x]) == FirstOccurrences(names) + (if x in names then [] else [x])
  {
    assert (names + [x])[..|names|] == names;
    SameNames(names, x);
  }

  // ----- presence, pause and the caller's life -----

  /** Where an agent goes when a ring or a call ends. */
  function Freed(agent: Agent, online: bool, now: int): Agent {
    agent.(state := if !online then Offline else if agent.paused then Paused else Available, idleSince := now)
  }

  function Recomputed(agent: Agent, online: bool, now: int): Agent {
    var next :=
      if !online then Offline
      else if agent.paused then Paused
      else if agent.state.Offline? || agent.state.Paused? then Available
      else agent.state;
    if next == agent.state then agent
    else agent.(state := next, idleSince := if next.Available? then now else agent.idleSince)
  }

  function Synced(q: Queue, online: set<string>, now: int): Queue {
    q.(agents := map ext | ext in q.agents :: Recomputed(q.agents[ext], ext in online, now))
  }

  function Enqueued(q: Queue, callId: string, now: int): Queue {
    q.(callers := q.callers[callId := Caller(WaitingFor, None, now)])
  }

  function RingMarked(q: Queue, callId: string, ext: string): Queue {
    if callId !in q.callers then q
    else
      q.(callers := q.callers[callId := q.callers[callId].(state := RingingOn, agent := Some(ext))],
         agents := if ext in q.agents && q.agents[ext].state.Available?
                   then q.agents[ext := q.agents[ext].(state := Ringing)] else q.agents)
  }

  /** The caller is being offered to, or talking to, this agent. */
  predicate Holds(q: Queue, callId: string, ext: string) {
    callId in q.callers && q.callers[callId].agent == Some(ext)
  }

  function RingReleased(q: Queue, callId: string, ext: string, online: set<string>, now: int): Queue {
    q.(callers := if Holds(q, callId, ext)
                  then q.callers[callId := q.callers[callId].(state := WaitingFor, agent := None)] else q.callers,
       agents := if ext in q.agents && q.agents[ext].state.Ringing?
                 then q.agents[ext := Freed(q.agents[ext], ext in online, now)] else q.agents)
  }

  function ConnectMarked(q: Queue, callId: string, ext: string): Queue {
    if callId !in q.callers then q
    else
      q.(callers := q.callers[callId := q.callers[callId].(state := ConnectedTo, agent := Some(ext))],
         agents := if ext in q.agents
                   then q.agents[ext := q.agents[ext].(state := Busy, callsHandled := q.agents[ext].callsHandled + 1)]
                   else q.agents)
  }

  function Dequeued(q: Queue, callId: string, online: set<string>, now: int): Queue {
    if callId !in q.callers then q
    else
      var agent := q.callers[callId].agent;
      q.(callers := q.callers - {callId},
         agents := if agent.Some? && agent.value != "" && agent.value in q.agents && q.agents[agent.value].Engaged()
                   then q.agents[agent.value := Freed(q.agents[agent.value], agent.value in online, now)]
                   else q.agents)
  }

  function PauseSet(q: Queue, ext: string, paused: bool, online: set<string>, now: int): Queue {
    if ext !in q.agents || q.agents[ext].paused == paused then q
    else
      var agent := q.agents[ext].(paused := paused);
      var next :=
        if agent.Engaged() then agent
        else if ext !in online then agent.(state := Offline)
        else if paused then agent.(state := Paused)
        else agent.(state := Available, idleSince := now);
      q.(agents := q.agents[ext := next])
  }

  // ----- agent selection -----

  predicate Eligible(q: Queue, ext: string, exclude: set<string>) {
    ext in q.agents && q.agents[ext].state.Available? && ext !in exclude
  }

  /** The first eligible agent of the roster's first `n`. */
  function FirstEligible(q: Queue, exclude: set<string>, n: nat): Option<string>
    requires n <= |q.roster|
  {
    if n == 0 then None
    else
      var first := FirstEligible(q, exclude, n - 1);
      if first.None? && Eligible(q, q.roster[n - 1], exclude) then Some(q.roster[n - 1]) else first
  }

  /** The first of the longest-idle eligible agents among the roster's first `n`. */
  function LongestIdleOf(q: Queue, exclude: set<string>, n: nat): (best: Option<string>)
    requires n <= |q.roster|
    ensures best.Some? ==> best.value in q.agents
  {
    if n == 0 then None
    else
      var best := LongestIdleOf(q, exclude, n - 1);
      var ext := q.roster[n - 1];
      if Eligible(q, ext, exclude) && (best.None? || q.agents[ext].idleSince < q.agents[best.value].idleSince)
      then Some(ext) else best
  }

  /** The next eligible roster position, `i` or more steps after the cursor. */
  function NextPosition(q: Queue, exclude: set<string>, i: nat): (next: Option<nat>)
    requires q.roster != []
    ensures next.Some? ==> next.value < |q.roster|
    decreases |q.roster| + 1 - i
  {
    if i > |q.roster| then None
    else
      var position := (q.rrCursor + i) % |q.roster|;
      if Eligible(q, q.roster[position], exclude) then Some(position) else NextPosition(q, exclude, i + 1)
  }

  datatype Choice = Choice(agent: Option<string>, queue: Queue)

  function Chosen(q: Queue, exclude: set<string>): Choice {
    if FirstEligible(q, exclude, |q.roster|).None? then Choice(None, q)
    else
      match q.strategy
      case LongestIdle => Choice(LongestIdleOf(q, exclude, |q.roster|), q)
      case Sequential => Choice(FirstEligible(q, exclude, |q.roster|), q)
      case RoundRobin =>
        if q.roster == [] then Choice(None, q)
        else
          match NextPosition(q, exclude, 1)
          case Some(position) => Choice(Some(q.roster[position]), q.(rrCursor := position))
          case None => Choice(FirstEligible(q, exclude, |q.roster|), q)
  }

  lemma {:induction false} FirstEligibleIs(q: Queue, exclude: set<string>, n: nat)
    requires n <= |q.roster|
    ensures var first := FirstEligible(q, exclude, n);
      && (first.Some? ==> Eligible(q, first.value, exclude) && first.value in q.roster)
      && (first.None? ==> forall i :: 0 <= i < n ==> !Eligible(q, q.roster[i], exclude))
  {
    if n > 0 {
      FirstEligibleIs(q, exclude, n - 1);
    }
  }

  lemma {:induction false} LongestIdleIs(q: Queue, exclude: set<string>, n: nat)
    requires n <= |q.roster|
    ensures var best := LongestIdleOf(q, exclude, n);
      && (best.Some? ==> Eligible(q, best.value, exclude))
      && (forall i :: 0 <= i < n && Eligible(q, q.roster[i], exclude) ==>
            best.Some? && q.agents[best.value].idleSince <= q.agents[q.roster[i]].idleSince)
  {
    if n > 0 {
      LongestIdleIs(q, exclude, n - 1);
    }
  }

  lemma {:induction false} NextPositionIs(q: Queue, exclude: set<string>, i: nat)
    requires q.roster != []
    ensures var next := NextPosition(q, exclude, i);
      next.Some? ==> Eligible(q, q.roster[next.value], exclude)
    decreases |q.roster| + 1 - i
  {
    if i <= |q.roster| {
      NextPositionIs(q, exclude, i + 1);
    }
  }

  /** Whatever the policy, the chosen agent is eligible, and nobody is chosen only when nobody is. */
  lemma ChosenIsEligible(q: Queue, exclude: set<string>)
    requires Valid(q)
    ensures var choice := Chosen(q, exclude);
      && (choice.agent.Some? ==> Eligible(q, choice.agent.value, exclude))
      && (choice.agent.None? <==> forall ext :: !Eligible(q, ext, exclude))
      && choice.queue == q.(rrCursor := choice.queue.rrCursor)
  {
    FirstEligibleIs(q, exclude, |q.roster|);
    LongestIdleIs(q, exclude, |q.roster|);
    if q.roster != [] {
      NextPositionIs(q, exclude, 1);
    }
    var first := FirstEligible(q, exclude, |q.roster|);
    if first.None? {
      forall ext ensures !Eligible(q, ext, exclude) {
        if ext in q.agents {
          assert ext in q.roster;
        }
      }
    }
  }

  lemma {:induction false} NoneBefore(q: Queue, exclude: set<string>, n: nat)
    requires n <= |q.roster| && forall i :: 0 <= i < n ==> !Eligible(q, q.roster[i], exclude)
    ensures FirstEligible(q, exclude, n).None?
  {
    if n > 0 {
      NoneBefore(q, exclude, n - 1);
    }
  }

  /** The sequential policy picks the earliest eligible agent of the roster. */
  lemma {:induction false} FirstEligibleIsFirst(q: Queue, exclude: set<string>, n: nat, p: nat)
    requires p < n <= |q.roster| && Eligible(q, q.roster[p], exclude)
    requires forall i :: 0 <= i < p ==> !Eligible(q, q.roster[i], exclude)
    ensures FirstEligible(q, exclude, n) == Some(q.roster[p])
  {
    if n == p + 1 {
      NoneBefore(q, exclude, p);
    } else {
      FirstEligibleIsFirst(q, exclude, n - 1, p);
    }
  }

  lemma SequentialPicksFirst(q: Queue, exclude: set<string>, p: nat)
    requires q.strategy.Sequential? && p < |q.roster| && Eligible(q, q.roster[p], exclude)
    requires forall i :: 0 <= i < p ==> !Eligible(q, q.roster[i], exclude)
    ensures Chosen(q, exclude) == Choice(Some(q.roster[p]), q)
  {
    FirstEligibleIsFirst(q, exclude, |q.roster|, p);
  }

  /** Position `p` is eligible, nobody eligible is idle longer, and nobody before it as long. */
  ghost predicate FirstLongestIdle(q: Queue, exclude: set<string>, p: nat) {
    && p < |q.roster| && Eligible(q, q.roster[p], exclude)
    && (forall i :: 0 <= i < |q.roster| && Eligible(q, q.roster[i], exclude) ==>
          q.agents[q.roster[p]].idleSince <= q.agents[q.roster[i]].idleSince)
    && (forall i :: 0 <= i < p && Eligible(q, q.roster[i], exclude) ==>
          q.agents[q.roster[p]].idleSince < q.agents[q.roster[i]].idleSince)
  }

  lemma {:induction false} LongestIdleUpTo(q: Queue, exclude: set<string>, p: nat, n: nat)
    requires n <= |q.roster| && FirstLongestIdle(q, exclude, p)
    ensures var best := LongestIdleOf(q, exclude, n);
      if n > p then best == Some(q.roster[p])
      else best.Some? ==> q.agents[q.roster[p]].idleSince < q.agents[best.value].idleSince
  {
    if n > 0 {
      LongestIdleUpTo(q, exclude, p, n - 1);
    }
  }

  /** Longest-idle picks the first of those that have been idle longest. */
  lemma LongestIdlePicksFirst(q: Queue, exclude: set<string>, p: nat)
    requires q.strategy.LongestIdle? && FirstLongestIdle(q, exclude, p)
    ensures Chosen(q, exclude) == Choice(Some(q.roster[p]), q)
  {
    LongestIdleUpTo(q, exclude, p, |q.roster|);
    if FirstEligible(q, exclude, |q.roster|).None? {
      FirstEligibleIs(q, exclude, |q.roster|);
    }
  }

  // ----- the agent to ring -----

  /** `nextAgent` of the queue route: ask for up to `tries` agents, skipping those without a live contact. */
  function Hunted(q: Queue, reachable: set<string>, exclude: set<string>, tries: nat): Choice
    decreases tries
  {
    if tries == 0 then Choice(None, q)
    else
      var choice := Chosen(q, exclude);
      if choice.agent.None? || choice.agent.value in reachable then choice
      else Hunted(choice.queue, reachable, exclude + {choice.agent.value}, tries - 1)
  }

  ghost function EligibleAgents(q: Queue, exclude: set<string>): set<string> {
    set ext | ext in q.agents && Eligible(q, ext, exclude)
  }

  lemma HuntStep(q: Queue, reachable: set<string>, exclude: set<string>, tries: nat, choice: Choice)
    requires Valid(q) && tries > 0 && choice == Chosen(q, exclude)
    ensures Valid(choice.queue)
    ensures Hunted(q, reachable, exclude, tries) ==
      if choice.agent.None? || choice.agent.value in reachable then choice
      else Hunted(choice.queue, reachable, exclude + {choice.agent.value}, tries - 1)
  {
    ChosenIsEligible(q, exclude);
  }

  /** Excluding an eligible agent leaves one eligible agent less, wherever the cursor stands. */
  lemma OneExcluded(q: Queue, cursor: nat, exclude: set<string>, ext: string)
    requires Eligible(q, ext, exclude)
    ensures var q', exclude' := q.(rrCursor := cursor), exclude + {ext};
      && |EligibleAgents(q', exclude')| == |EligibleAgents(q, exclude)| - 1
      && forall x :: Eligible(q', x, exclude') <==> Eligible(q, x, exclude) && x != ext
  {
    assert EligibleAgents(q.(rrCursor := cursor), exclude + {ext}) == EligibleAgents(q, exclude) - {ext};
  }

  /** With as many tries as there are eligible agents, the hunt finds a reachable one exactly when there is one. */
  lemma {:induction false} HuntFinds(q: Queue, reachable: set<string>, exclude: set<string>, tries: nat)
    requires Valid(q) && |EligibleAgents(q, exclude)| <= tries
    ensures var found := Hunted(q, reachable, exclude, tries);
      && Valid(found.queue) && found.queue == q.(rrCursor := found.queue.rrCursor)
      && (found.agent.Some? ==> Eligible(q, found.agent.value, exclude) && found.agent.value in reachable)
      && (found.agent.None? ==> forall ext :: ext in reachable ==> !Eligible(q, ext, exclude))
    decreases tries
  {
    if tries == 0 {
      forall ext ensures !Eligible(q, ext, exclude) {
        assert ext !in EligibleAgents(q, exclude);
      }
    } else {
      var choice := Chosen(q, exclude);
      ChosenIsEligible(q, exclude);
      HuntStep(q, reachable, exclude, tries, choice);
      if choice.agent.Some? && choice.agent.value !in reachable {
        OneExcluded(q, choice.queue.rrCursor, exclude, choice.agent.value);
        HuntFinds(choice.queue, reachable, exclude + {choice.agent.value}, tries - 1);
      }
    }
  }

  /** The hunt of the queue route misses no available agent that can be reached. */
  lemma HuntIsComplete(q: Queue, reachable: set<string>)
    requires Valid(q)
    ensures var found := Hunted(q, reachable, {}, |q.agents|);
      && Valid(found.queue) && found.queue == q.(rrCursor := found.queue.rrCursor)
      && (found.agent.Some? ==> Eligible(q, found.agent.value, {}) && found.agent.value in reachable)
      && (found.agent.Some? <==> exists ext :: ext in reachable && Eligible(q, ext, {}))
  {
    assert EligibleAgents(q, {}) <= q.agents.Keys;
    assert |q.agents.Keys - EligibleAgents(q, {})| == |q.agents.Keys| - |EligibleAgents(q, {})|;
    HuntFinds(q, reachable, {}, |q.agents|);
  }

  /** The hunt goes by the queue's policy: it asks on only when the agent picked cannot be reached. */
  lemma HuntFollowsPolicy(q: Queue, reachable: set<string>)
    requires Valid(q) && Chosen(q, {}).agent.Some?
    ensures var choice := Chosen(q, {});
      && |q.agents| > 0
      && Hunted(q, reachable, {}, |q.agents|) ==
           if choice.agent.value in reachable then choice
           else Hunted(choice.queue, reachable, {choice.agent.value}, |q.agents| - 1)
  {
    ChosenIsEligible(q, {});
    assert Chosen(q, {}).agent.value in q.agents.Keys;
    HuntStep(q, reachable, {}, |q.agents|, Chosen(q, {}));
    assert {} + {Chosen(q, {}).agent.value} == {Chosen(q, {}).agent.value};
  }

  // ----- the service -----

  /** The queue's new value, when the queue exists. */
  function Updated(queues: map<string, Queue>, id: string, f: Queue -> Queue): map<string, Queue> {
    if id in queues then queues[id := f(queues[id])] else queues
  }

  class QueueService {
    var queues: map<string, Queue>

    constructor ()
      ensures queues == map[]
    {
      queues := map[];
    }

    /** One queue definition of the constructor; a name that is listed twice is one agent. */
    method Define(id: string, strategy: Strategy, extensions: seq<string>, now: int)
      modifies this
      ensures id in queues && queues == old(queues)[id := queues[id]]
      ensures var q := queues[id];
        && Valid(q) && q.strategy == strategy && q.callers == map[] && q.rrCursor == 0
        && q.roster == FirstOccurrences(extensions)
        && forall ext :: ext in q.agents ==> q.agents[ext] == Agent(Offline, false, now, 0)
    {
      var roster: seq<string> := [];
      var agents: map<string, Agent> := map[];
      for i := 0 to |extensions|
        invariant Valid(Queue(strategy, roster, agents, map[], 0))
        invariant roster == FirstOccurrences(extensions[..i])
        invariant forall ext :: ext in agents ==> agents[ext] == Agent(Offline, false, now, 0)
      {
        var ext := extensions[i];
        assert extensions[..i + 1][..i] == extensions[..i];
        if ext !in agents {
          roster := roster + [ext];
        }
        agents := agents[ext := Agent(Offline, false, now, 0)];
      }
      assert extensions[..|extensions|] == extensions;
      queues := queues[id := Queue(strategy, roster, agents, map[], 0)];
    }

    method RecomputePresence(id: string, online: set<string>, now: int) returns (changed: bool)
      requires id in queues && Valid(queues[id])
      modifies this
      ensures queues == old(queues)[id := Synced(old(queues)[id], online, now)]
      ensures changed <==> queues[id] != old(queues)[id]
    {
      var q := queues[id];
      var agents := q.agents;
      changed := false;
      for i := 0 to |q.roster|
        invariant agents.Keys == q.agents.Keys
        invariant forall j :: 0 <= j < i ==> agents[q.roster[j]] == Recomputed(q.agents[q.roster[j]], q.roster[j] in online, now)
        invariant forall j :: i <= j < |q.roster| ==> agents[q.roster[j]] == q.agents[q.roster[j]]
        invariant !changed <==> agents == q.agents
      {
        var ext := q.roster[i];
        var agent := agents[ext];
        var next := agent.state;
        if ext !in online {
          next := Offline;
        } else if agent.paused {
          next := Paused;
        } else if agent.state.Offline? || agent.state.Paused? {
          next := Available;
        }
        if next != agent.state {
          agent := agent.(state := next);
          if next.Available? {
            agent := agent.(idleSince := now);
          }
          agents := agents[ext := agent];
          assert agents[ext] != q.agents[ext];
          changed := true;
        }
      }
      forall ext | ext in agents ensures agents[ext] == Recomputed(q.agents[ext], ext in online, now) {
        assert ext in q.roster;
      }
      assert agents == Synced(q, online, now).agents;
      queues := queues[id := q.(agents := agents)];
    }

    method Enqueue(id: string, callId: string, now: int)
      modifies this
      ensures queues == Updated(old(queues), id, q => Enqueued(q, callId, now))
    {
      if id in queues {
        var q := queues[id];
        queues := queues[id := q.(callers := q.callers[callId := Caller(WaitingFor, None, now)])];
      }
    }

    method MarkCallerRinging(id: string, callId: string, ext: string)
      modifies this
      ensures queues == Updated(old(queues), id, q => RingMarked(q, callId, ext))
    {
      if id !in queues || callId !in queues[id].callers {
        return;
      }
      var q := queues[id];
      var caller := q.callers[callId].(state := RingingOn);
      q := q.(callers := q.callers[callId := caller.(agent := Some(ext))]);
      if ext in q.agents && q.agents[ext].state.Available? {
        q := q.(agents := q.agents[ext := q.agents[ext].(state := Ringing)]);
      }
      queues := queues[id := q];
    }

    method ReleaseRing(id: string, callId: string, ext: string, online: set<string>, now: int)
      modifies this
      ensures queues == Updated(old(queues), id, q => RingReleased(q, callId, ext, online, now))
    {
      if id !in queues {
        return;
      }
      var q := queues[id];
      if callId in q.callers && q.callers[callId].agent == Some(ext) {
        q := q.(callers := q.callers[callId := q.callers[callId].(state := WaitingFor, agent := None)]);
      }
      if ext in q.agents && q.agents[ext].state.Ringing? {
        var agent := q.agents[ext];
        agent := agent.(state := if ext in online then (if agent.paused then Paused else Available) else Offline);
        q := q.(agents := q.agents[ext := agent.(idleSince := now)]);
      }
      queues := queues[id := q];
    }

    method MarkCallerConnected(id: string, callId: string, ext: string)
      modifies this
      ensures queues == Updated(old(queues), id, q => ConnectMarked(q, callId, ext))
    {
      if id !in queues || callId !in queues[id].callers {
        return;
      }
      var q := queues[id];
      q := q.(callers := q.callers[callId := q.callers[callId].(state := ConnectedTo, agent := Some(ext))]);
      if ext in q.agents {
        var agent := q.agents[ext].(state := Busy);
        q := q.(agents := q.agents[ext := agent.(callsHandled := agent.callsHandled + 1)]);
      }
      queues := queues[id := q];
    }

    method Dequeue(id: string, callId: string, online: set<string>, now: int)
      modifies this
      ensures queues == Updated(old(queues), id, q => Dequeued(q, callId, online, now))
    {
      if id !in queues || callId !in queues[id].callers {
        return;
      }
      var q := queues[id];
      var caller := q.callers[callId];
      q := q.(callers := q.callers - {callId});
      if caller.agent.Some? && caller.agent.value != "" && caller.agent.value in q.agents {
        var ext := caller.agent.value;
        var agent := q.agents[ext];
        if agent.state.Busy? || agent.state.Ringing? {
          agent := agent.(state := if ext in online then (if agent.paused then Paused else Available) else Offline);
          q := q.(agents := q.agents[ext := agent.(idleSince := now)]);
        }
      }
      queues := queues[id := q];
    }

    method SetAgentPaused(id: string, ext: string, paused: bool, online: set<string>, now: int) returns (changed: bool)
      modifies this
      ensures queues == Updated(old(queues), id, q => PauseSet(q, ext, paused, online, now))
      ensures changed <==> id in old(queues) && queues[id] != old(queues)[id]
    {
      if id !in queues || ext !in queues[id].agents || queues[id].agents[ext].paused == paused {
        return false;
      }
      var q := queues[id];
      var agent := q.agents[ext].(paused := paused);
      if agent.state.Available? || agent.state.Paused? || agent.state.Offline? {
        if ext !in online {
          agent := agent.(state := Offline);
        } else {
          agent := agent.(state := if paused then Paused else Available);
        }
        if agent.state.Available? {
          agent := agent.(idleSince := now);
        }
      }
      var agents := q.agents[ext := agent];
      assert agents[ext] != q.agents[ext];
      queues := queues[id := q.(agents := agents)];
      return true;
    }

    /** The distribution policy; round-robin also moves the cursor. */
    method NextAvailableAgent(id: string, exclude: set<string>) returns (agent: Option<string>)
      requires id in queues ==> Valid(queues[id])
      modifies this
      ensures id !in old(queues) ==> agent == None && queues == old(queues)
      ensures id in old(queues) ==>
        var choice := Chosen(old(queues)[id], exclude);
        agent == choice.agent && queues == old(queues)[id := choice.queue]
    {
      if id !in queues {
        return None;
      }
      var q := queues[id];
      var candidates: seq<string> := [];
      var best: Option<string> := None;
      for i := 0 to |q.roster|
        invariant candidates == [] <==> FirstEligible(q, exclude, i).None?
        invariant candidates != [] ==> Some(candidates[0]) == FirstEligible(q, exclude, i)
        invariant best == LongestIdleOf(q, exclude, i)
      {
        var ext := q.roster[i];
        if q.agents[ext].state.Available? && ext !in exclude {
          candidates := candidates + [ext];
          if best.None? || q.agents[ext].idleSince < q.agents[best.value].idleSince {
            best := Some(ext);
          }
        }
      }
      assert queues == queues[id := q];
      if candidates == [] {
        return None;
      }
      if q.strategy.LongestIdle? {
        return best;
      }
      if q.strategy.RoundRobin? {
        var n := |q.roster|;
        var i := 1;
        while i <= n
          invariant 1 <= i <= n + 1
          invariant NextPosition(q, exclude, i) == NextPosition(q, exclude, 1)
        {
          var position := (q.rrCursor + i) % n;
          var ext := q.roster[position];
          if q.agents[ext].state.Available? && ext !in exclude {
            queues := queues[id := q.(rrCursor := position)];
            return Some(ext);
          }
          i := i + 1;
        }
      }
      return Some(candidates[0]);
    }

    /** The queue route's `nextAgent`; `reachable` are the extensions with a registered contact. */
    method NextAgent(id: string, reachable: set<string>) returns (agent: Option<string>)
      requires id in queues && Valid(queues[id])
      modifies this
      ensures var found := Hunted(old(queues)[id], reachable, {}, |old(queues)[id].agents|);
        agent == found.agent && queues == old(queues)[id := found.queue]
    {
      var exclude: set<string> := {};
      var size := |queues[id].agents|;
      ghost var q := queues[id];
      ghost var found := Hunted(q, reachable, {}, size);
      for i := 0 to size
        invariant Valid(q) && queues == old(queues)[id := q]
        invariant Hunted(q, reachable, exclude, size - i) == found
      {
        ghost var choice := Chosen(q, exclude);
        HuntStep(q, reachable, exclude, size - i, choice);
        agent := NextAvailableAgent(id, exclude);
        q := choice.queue;
        assert agent == choice.agent && queues == old(queues)[id := q];
        if agent.None? || agent.value in reachable {
          return;
        }
        exclude := exclude + {agent.value};
      }
      return None;
    }
  }
}
