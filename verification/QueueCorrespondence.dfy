/**
 * Callers and agents of a queue stay in one-to-one correspondence. For each
 * operation the exact condition under which it keeps the correspondence is
 * proved, both ways; runs of operations that meet their conditions keep it
 * throughout, and picking an agent and ringing it for a waiting caller in one
 * step always meets its condition.
 */
module QueueCorrespondence {
  import opened Common
  import opened CallQueue

  /** A ringing caller rings a ringing agent, a connected one talks to a busy agent, a waiting one has none. */
  ghost predicate CallerMatches(q: Queue, callId: string)
    requires callId in q.callers
  {
    var caller := q.callers[callId];
    match caller.state
    case WaitingFor => caller.agent.None?
    case RingingOn => caller.agent.Some? && caller.agent.value in q.agents && q.agents[caller.agent.value].state.Ringing?
    case ConnectedTo => caller.agent.Some? && caller.agent.value in q.agents && q.agents[caller.agent.value].state.Busy?
  }

  /** Some caller holds the agent. */
  ghost predicate Held(q: Queue, ext: string) {
    exists callId :: Holds(q, callId, ext)
  }

  ghost predicate Corresponds(q: Queue) {
    && (forall callId :: callId in q.callers ==> CallerMatches(q, callId))
    && (forall c, d :: c in q.callers && d in q.callers && c != d && q.callers[c].agent.Some? ==>
          q.callers[c].agent != q.callers[d].agent)
    && (forall ext :: ext in q.agents && q.agents[ext].Engaged() ==> Held(q, ext))
  }

  datatype Event =
    | Enqueue(callId: string)
    | Ring(callId: string, ext: string)
    | Release(callId: string, ext: string, online: set<string>)
    | Connect(callId: string, ext: string)
    | Dequeue(callId: string, online: set<string>)
    | Sync(online: set<string>)
    | Pause(ext: string, paused: bool, online: set<string>)
    | Select(exclude: set<string>)

  ghost function Step(q: Queue, e: Event, at: int): Queue {
    match e
    case Enqueue(c) => Enqueued(q, c, at)
    case Ring(c, ext) => RingMarked(q, c, ext)
    case Release(c, ext, online) => RingReleased(q, c, ext, online, at)
    case Connect(c, ext) => ConnectMarked(q, c, ext)
    case Dequeue(c, online) => Dequeued(q, c, online, at)
    case Sync(online) => Synced(q, online, at)
    case Pause(ext, paused, online) => PauseSet(q, ext, paused, online, at)
    case Select(exclude) => Chosen(q, exclude).queue
  }

  ghost function After(q: Queue, run: Run<Timed<Event>>): Queue {
    match run
    case Start => q
    case Then(before, t) => Step(After(q, before), t.event, t.at)
  }

  /** The exact condition under which an operation keeps the correspondence. */
  ghost predicate Orderly(q: Queue, e: Event) {
    match e
    case Enqueue(c) => c in q.callers ==> q.callers[c].agent.None?
    case Ring(c, ext) =>
      c in q.callers ==>
        ext in q.agents &&
        ((q.callers[c].agent.None? && q.agents[ext].state.Available?)
         || (q.callers[c].agent == Some(ext) && q.callers[c].state.RingingOn?))
    case Release(c, ext, _) =>
      if Holds(q, c, ext) then q.callers[c].state.RingingOn?
      else ext in q.agents ==> !q.agents[ext].state.Ringing?
    case Connect(c, ext) =>
      c in q.callers ==>
        ext in q.agents &&
        (q.callers[c].agent == Some(ext) || (q.callers[c].agent.None? && !q.agents[ext].Engaged()))
    case Sync(online) =>
      forall ext :: ext in q.agents && q.agents[ext].Engaged() ==> ext in online && !q.agents[ext].paused
    case Dequeue(c, _) => c in q.callers ==> q.callers[c].agent != Some("")
    case Pause(_, _, _) => true
    case Select(_) => true
  }

  /** When no caller has lost its agent, every engaged agent that did not change is still held. */
  lemma StillHeld(q: Queue, q': Queue, ext: string, except: string)
    requires Held(q, ext) && !Holds(q, except, ext)
    requires forall d :: d != except && d in q.callers ==> d in q'.callers && q'.callers[d] == q.callers[d]
    ensures Held(q', ext)
  {
    var d :| Holds(q, d, ext);
    assert Holds(q', d, ext);
  }

  /** An agent that its only caller has let go of is held by nobody. */
  lemma LetGo(q: Queue, q': Queue, ext: string, c: string)
    requires Corresponds(q) && Holds(q, c, ext) && !Holds(q', c, ext)
    requires forall d :: d != c && d in q'.callers ==> d in q.callers && q'.callers[d] == q.callers[d]
    ensures !Held(q', ext)
  {
    forall d ensures !Holds(q', d, ext) {
      assert d != c && d in q'.callers ==> q'.callers[d].agent != q.callers[c].agent;
    }
  }

  lemma EnqueueIff(q: Queue, c: string, at: int)
    requires Valid(q) && Corresponds(q)
    ensures Corresponds(Enqueued(q, c, at)) <==> Orderly(q, Enqueue(c))
  {
    var q' := Enqueued(q, c, at);
    if Orderly(q, Enqueue(c)) {
      forall ext | ext in q'.agents && q'.agents[ext].Engaged() ensures Held(q', ext) {
        StillHeld(q, q', ext, c);
      }
      forall d | d in q'.callers ensures CallerMatches(q', d) {
        assert d != c ==> CallerMatches(q, d);
      }
    } else {
      assert CallerMatches(q, c);
      LetGo(q, q', q.callers[c].agent.value, c);
    }
  }

  lemma RingIff(q: Queue, c: string, ext: string)
    requires Valid(q) && Corresponds(q)
    ensures Corresponds(RingMarked(q, c, ext)) <==> Orderly(q, Ring(c, ext))
  {
    var q' := RingMarked(q, c, ext);
    if c in q.callers {
      assert CallerMatches(q, c);
      assert Holds(q', c, ext);
      var agent := q.callers[c].agent;
      if Orderly(q, Ring(c, ext)) {
        forall x | x in q'.agents && q'.agents[x].Engaged() ensures Held(q', x) {
          if x != ext {
            StillHeld(q, q', x, c);
          }
        }
        forall d | d in q'.callers ensures CallerMatches(q', d) {
          assert CallerMatches(q, d);
        }
      } else if agent.Some? && agent.value != ext {
        LetGo(q, q', agent.value, c);
      } else if agent.None? && ext in q.agents && q.agents[ext].Engaged() {
        var d :| Holds(q, d, ext);
        assert q'.callers[c].agent == q'.callers[d].agent;
      } else {
        assert !CallerMatches(q', c);
      }
    }
  }

  lemma ReleaseIff(q: Queue, c: string, ext: string, online: set<string>, at: int)
    requires Valid(q) && Corresponds(q)
    ensures Corresponds(RingReleased(q, c, ext, online, at)) <==> Orderly(q, Release(c, ext, online))
  {
    var q' := RingReleased(q, c, ext, online, at);
    if Orderly(q, Release(c, ext, online)) {
      forall x | x in q'.agents && q'.agents[x].Engaged() ensures Held(q', x) {
        if Holds(q, c, ext) {
          assert x != ext;
          StillHeld(q, q', x, c);
        } else {
          assert q'.callers == q.callers && Held(q, x);
          var d :| Holds(q, d, x);
          assert Holds(q', d, x);
        }
      }
      forall d | d in q'.callers ensures CallerMatches(q', d) {
        assert CallerMatches(q, d);
      }
    } else if Holds(q, c, ext) {
      assert CallerMatches(q, c);
      LetGo(q, q', ext, c);
    } else {
      var d :| Holds(q, d, ext);
      assert CallerMatches(q, d) && !CallerMatches(q', d);
    }
  }

  lemma ConnectIff(q: Queue, c: string, ext: string)
    requires Valid(q) && Corresponds(q)
    ensures Corresponds(ConnectMarked(q, c, ext)) <==> Orderly(q, Connect(c, ext))
  {
    var q' := ConnectMarked(q, c, ext);
    if c in q.callers {
      assert CallerMatches(q, c);
      assert Holds(q', c, ext);
      var agent := q.callers[c].agent;
      if Orderly(q, Connect(c, ext)) {
        forall x | x in q'.agents && q'.agents[x].Engaged() ensures Held(q', x) {
          if x != ext {
            StillHeld(q, q', x, c);
          }
        }
        forall d | d in q'.callers ensures CallerMatches(q', d) {
          assert CallerMatches(q, d);
        }
      } else if agent.Some? && agent.value != ext {
        LetGo(q, q', agent.value, c);
      } else if agent.None? && ext in q.agents && q.agents[ext].Engaged() {
        var d :| Holds(q, d, ext);
        assert q'.callers[c].agent == q'.callers[d].agent;
      } else {
        assert !CallerMatches(q', c);
      }
    }
  }

  lemma DequeueIff(q: Queue, c: string, online: set<string>, at: int)
    requires Valid(q) && Corresponds(q)
    ensures Corresponds(Dequeued(q, c, online, at)) <==> Orderly(q, Dequeue(c, online))
  {
    var q' := Dequeued(q, c, online, at);
    if c in q.callers {
      assert CallerMatches(q, c);
    }
    if !Orderly(q, Dequeue(c, online)) {
      LetGo(q, q', "", c);
    } else if c in q.callers {
      forall x | x in q'.agents && q'.agents[x].Engaged() ensures Held(q', x) {
        StillHeld(q, q', x, c);
      }
      forall d | d in q'.callers ensures CallerMatches(q', d) {
        assert CallerMatches(q, d);
      }
    }
  }

  lemma SyncIff(q: Queue, online: set<string>, at: int)
    requires Valid(q) && Corresponds(q)
    ensures Corresponds(Synced(q, online, at)) <==> Orderly(q, Sync(online))
  {
    var q' := Synced(q, online, at);
    assert forall d, x :: Holds(q', d, x) <==> Holds(q, d, x);
    if Orderly(q, Sync(online)) {
      forall x | x in q'.agents && q'.agents[x].Engaged() ensures Held(q', x) {
        var d :| Holds(q, d, x);
        assert Holds(q', d, x);
      }
      forall d | d in q'.callers ensures CallerMatches(q', d) {
        assert CallerMatches(q, d);
      }
    } else {
      var ext :| ext in q.agents && q.agents[ext].Engaged() && (ext !in online || q.agents[ext].paused);
      var d :| Holds(q, d, ext);
      assert CallerMatches(q, d) && !CallerMatches(q', d);
    }
  }

  lemma PauseKeeps(q: Queue, ext: string, paused: bool, online: set<string>, at: int)
    requires Valid(q) && Corresponds(q)
    ensures Corresponds(PauseSet(q, ext, paused, online, at))
  {
    var q' := PauseSet(q, ext, paused, online, at);
    forall x | x in q'.agents && q'.agents[x].Engaged() ensures Held(q', x) {
      var d :| Holds(q, d, x);
      assert Holds(q', d, x);
    }
    forall d | d in q'.callers ensures CallerMatches(q', d) {
      assert CallerMatches(q, d);
    }
  }

  lemma SelectKeeps(q: Queue, exclude: set<string>)
    requires Valid(q) && Corresponds(q)
    ensures Corresponds(Chosen(q, exclude).queue)
  {
    var q' := Chosen(q, exclude).queue;
    assert q'.callers == q.callers && q'.agents == q.agents;
    forall x | x in q'.agents && q'.agents[x].Engaged() ensures Held(q', x) {
      var d :| Holds(q, d, x);
      assert Holds(q', d, x);
    }
    forall d | d in q'.callers ensures CallerMatches(q', d) {
      assert CallerMatches(q, d);
    }
  }

  lemma StepValid(q: Queue, e: Event, at: int)
    requires Valid(q)
    ensures Valid(Step(q, e, at)) && Step(q, e, at).roster == q.roster && Step(q, e, at).strategy == q.strategy
  {
  }

  /** An operation keeps the correspondence if and only if it is orderly. */
  lemma KeepsIffOrderly(q: Queue, e: Event, at: int)
    requires Valid(q) && Corresponds(q)
    ensures Corresponds(Step(q, e, at)) <==> Orderly(q, e)
  {
    match e
    case Enqueue(c) => EnqueueIff(q, c, at);
    case Ring(c, ext) => RingIff(q, c, ext);
    case Release(c, ext, online) => ReleaseIff(q, c, ext, online, at);
    case Connect(c, ext) => ConnectIff(q, c, ext);
    case Dequeue(c, online) => DequeueIff(q, c, online, at);
    case Sync(online) => SyncIff(q, online, at);
    case Pause(ext, paused, online) => PauseKeeps(q, ext, paused, online, at);
    case Select(exclude) => SelectKeeps(q, exclude);
  }

  /** Every event of the run is orderly where it happens. */
  ghost predicate OrderlyRun(q: Queue, run: Run<Timed<Event>>) {
    run.Then? ==> OrderlyRun(q, run.before) && Orderly(After(q, run.before), run.last.event)
  }

  /** A queue as it is defined: nobody waits, nobody is online. */
  ghost predicate Fresh(q: Queue) {
    q.callers == map[] && forall ext :: ext in q.agents ==> q.agents[ext].state.Offline? && !q.agents[ext].paused
  }

  /** In every state of every orderly run, callers and agents correspond one to one. */
  lemma {:induction false} CorrespondenceAlways(q: Queue, run: Run<Timed<Event>>)
    requires Valid(q) && Fresh(q) && OrderlyRun(q, run)
    ensures Valid(After(q, run)) && Corresponds(After(q, run))
  {
    if run.Then? {
      CorrespondenceAlways(q, run.before);
      StepValid(After(q, run.before), run.last.event, run.last.at);
      KeepsIffOrderly(After(q, run.before), run.last.event, run.last.at);
    }
  }

  /** Picking an agent and ringing it for a waiting caller, in one step, is always orderly. */
  lemma SelectThenRingIsOrderly(q: Queue, exclude: set<string>, c: string)
    requires Valid(q) && c in q.callers && q.callers[c].agent.None?
    ensures var choice := Chosen(q, exclude);
      choice.agent.Some? ==> Orderly(choice.queue, Ring(c, choice.agent.value))
  {
    ChosenIsEligible(q, exclude);
  }

  /**
   * A late release, by a caller that has already left, of an agent that now
   * rings for somebody else breaks the correspondence: this is what happens
   * when the caller hangs up while the two legs are being bridged, and the
   * failed bridge then reports the agent as not answering.
   */
  lemma LateReleaseBreaks(q: Queue, c: string, ext: string, online: set<string>, at: int)
    requires Valid(q) && Corresponds(q) && c !in q.callers && ext in q.agents && q.agents[ext].state.Ringing?
    ensures !Corresponds(Step(q, Release(c, ext, online), at))
  {
    KeepsIffOrderly(q, Release(c, ext, online), at);
  }

  // ----- the same number on both sides -----

  ghost function EngagedAgents(q: Queue): set<string> {
    set ext | ext in q.agents && q.agents[ext].Engaged()
  }

  ghost function EngagedCallers(q: Queue): set<string> {
    set c | c in q.callers && !q.callers[c].state.WaitingFor?
  }

  /** Two sets of the same size, by taking one matching pair away at a time. */
  lemma {:induction false} PairedSizes(callers: set<string>, agents: set<string>, pair: map<string, string>)
    requires callers <= pair.Keys
    requires forall c :: c in callers ==> pair[c] in agents
    requires forall c, d :: c in callers && d in callers && c != d ==> pair[c] != pair[d]
    requires forall a :: a in agents ==> exists c :: c in callers && pair[c] == a
    ensures |callers| == |agents|
    decreases callers
  {
    if callers == {} {
      assert agents == {};
    } else {
      var c :| c in callers;
      PairedSizes(callers - {c}, agents - {pair[c]}, pair);
    }
  }

  /** A queue in correspondence has exactly as many engaged agents as engaged callers. */
  lemma EngagedSizes(q: Queue)
    requires Valid(q) && Corresponds(q)
    ensures |EngagedAgents(q)| == |EngagedCallers(q)|
  {
    var callers := EngagedCallers(q);
    forall c | c in callers ensures q.callers[c].agent.Some? && q.callers[c].agent.value in EngagedAgents(q) {
      assert CallerMatches(q, c);
    }
    var pair := map c | c in callers :: q.callers[c].agent.value;
    forall a | a in EngagedAgents(q) ensures exists c :: c in callers && pair[c] == a {
      var c :| Holds(q, c, a);
      assert CallerMatches(q, c);
      assert c in callers && pair[c] == a;
    }
    PairedSizes(callers, EngagedAgents(q), pair);
  }
}
