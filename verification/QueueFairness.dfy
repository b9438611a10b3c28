/**
 * Fairness of agent selection over whole runs of a queue: nobody who stays
 * eligible is passed over for a full turn of the round-robin, and under the
 * longest-idle policy nobody who became idle later overtakes.
 */
module QueueFairness {
  import opened Common
  import opened CallQueue
  import opened QueueCorrespondence

  // ----- round robin -----

  /** How many roster positions lie between the cursor and position `p`, going round. */
  ghost function Distance(cursor: nat, p: nat, n: nat): int {
    if p > cursor then p - cursor - 1 else p - cursor - 1 + n
  }

  lemma Wrap(cursor: nat, k: nat, n: nat)
    requires cursor < n && 1 <= k <= n
    ensures (cursor + k) % n == if cursor + k < n then cursor + k else cursor + k - n
  {
    var m := cursor + k;
    var turns, rest := m / n, m % n;
    assert m == turns * n + rest;
    assert turns == 1 ==> turns * n == n;
    assert turns >= 2 ==> turns * n >= 2 * n;
  }

  /** The scan stops at or before an eligible position, and so comes at least one position closer to it. */
  lemma {:induction false} ScanApproaches(q: Queue, exclude: set<string>, p: nat, i: nat)
    requires Valid(q) && p < |q.roster| && Eligible(q, q.roster[p], exclude)
    requires 1 <= i <= Distance(q.rrCursor, p, |q.roster|) + 1
    ensures var next := NextPosition(q, exclude, i);
      next.Some? && (next.value == p || Distance(next.value, p, |q.roster|) < Distance(q.rrCursor, p, |q.roster|))
    decreases |q.roster| + 1 - i
  {
    Wrap(q.rrCursor, i, |q.roster|);
    if !Eligible(q, q.roster[(q.rrCursor + i) % |q.roster|], exclude) {
      ScanApproaches(q, exclude, p, i + 1);
    }
  }

  /** With somebody eligible, round-robin finds its agent by scanning and never needs its fallback. */
  lemma FallbackNeverReached(q: Queue, exclude: set<string>, ext: string)
    requires Valid(q) && Eligible(q, ext, exclude)
    ensures q.roster != [] && NextPosition(q, exclude, 1).Some?
  {
    assert ext in q.roster;
    var p :| 0 <= p < |q.roster| && q.roster[p] == ext;
    ScanApproaches(q, exclude, p, 1);
  }

  /** How many selections `run` makes beyond `from`. */
  ghost function Selections(run: Run<Timed<Event>>, from: Run<Timed<Event>>): nat {
    if run == from || run.Start? then 0
    else Selections(run.before, from) + (if run.last.event.Select? then 1 else 0)
  }

  /** At each selection beyond `from`, the agent was eligible and somebody else was chosen. */
  ghost predicate PassedOver(q: Queue, run: Run<Timed<Event>>, from: Run<Timed<Event>>, ext: string) {
    run != from && run.Then? ==>
      && PassedOver(q, run.before, from, ext)
      && (run.last.event.Select? ==>
            && Eligible(After(q, run.before), ext, run.last.event.exclude)
            && Chosen(After(q, run.before), run.last.event.exclude).agent != Some(ext))
  }

  lemma {:induction false} RosterFixed(q: Queue, run: Run<Timed<Event>>)
    requires Valid(q)
    ensures Valid(After(q, run)) && After(q, run).roster == q.roster && After(q, run).strategy == q.strategy
  {
    if run.Then? {
      RosterFixed(q, run.before);
      StepValid(After(q, run.before), run.last.event, run.last.at);
    }
  }

  /** One selection: either the agent is chosen or the cursor comes closer to it. */
  lemma SelectionApproaches(q: Queue, exclude: set<string>, p: nat)
    requires Valid(q) && q.strategy.RoundRobin? && p < |q.roster| && Eligible(q, q.roster[p], exclude)
    ensures var choice := Chosen(q, exclude);
      && choice.queue.rrCursor < |q.roster|
      && (choice.agent == Some(q.roster[p])
          || Distance(choice.queue.rrCursor, p, |q.roster|) < Distance(q.rrCursor, p, |q.roster|))
  {
    ScanApproaches(q, exclude, p, 1);
    FirstEligibleIs(q, exclude, |q.roster|);
  }

  /** One event of the run, seen from an agent at position `p`. */
  lemma StepApproaches(q: Queue, t: Timed<Event>, p: nat)
    requires Valid(q) && q.strategy.RoundRobin? && p < |q.roster|
    requires t.event.Select? ==>
      Eligible(q, q.roster[p], t.event.exclude) && Chosen(q, t.event.exclude).agent != Some(q.roster[p])
    ensures Distance(Step(q, t.event, t.at).rrCursor, p, |q.roster|) + (if t.event.Select? then 1 else 0)
      <= Distance(q.rrCursor, p, |q.roster|)
  {
    if t.event.Select? {
      SelectionApproaches(q, t.event.exclude, p);
    }
  }

  /** Every selection that passes an eligible agent over brings the cursor closer to it. */
  lemma {:induction false} CursorApproaches(q: Queue, from: Run<Timed<Event>>, run: Run<Timed<Event>>, p: nat)
    requires Valid(q) && q.strategy.RoundRobin? && p < |q.roster|
    requires Continues(run, from) && PassedOver(q, run, from, q.roster[p])
    ensures Selections(run, from) + Distance(After(q, run).rrCursor, p, |q.roster|)
      <= Distance(After(q, from).rrCursor, p, |q.roster|)
  {
    if run != from {
      CursorApproaches(q, from, run.before, p);
      RosterFixed(q, run.before);
      StepApproaches(After(q, run.before), run.last, p);
    }
  }

  /**
   * Round-robin bounded waiting: however the other agents' states and the
   * exclude sets change in between, an agent that is eligible at each of a
   * roster's length of consecutive selections is chosen at one of them.
   */
  lemma BoundedWaiting(q: Queue, from: Run<Timed<Event>>, run: Run<Timed<Event>>, ext: string)
    requires Valid(q) && q.strategy.RoundRobin? && ext in q.agents
    requires Continues(run, from) && Selections(run, from) >= |q.roster|
    ensures !PassedOver(q, run, from, ext)
  {
    assert ext in q.roster;
    var p :| 0 <= p < |q.roster| && q.roster[p] == ext;
    if PassedOver(q, run, from, ext) {
      CursorApproaches(q, from, run, p);
      RosterFixed(q, from);
      RosterFixed(q, run);
    }
  }

  // ----- longest idle -----

  ghost predicate IsIdle(q: Queue, ext: string) {
    ext in q.agents && q.agents[ext].state.Available?
  }

  /** When the agent last turned available, read off the states of the run alone. */
  ghost function BecameIdle(q: Queue, run: Run<Timed<Event>>, ext: string): int {
    if run.Start? then (if ext in q.agents then q.agents[ext].idleSince else 0)
    else if IsIdle(After(q, run), ext) && !IsIdle(After(q, run.before), ext) then run.last.at
    else BecameIdle(q, run.before, ext)
  }

  /** No available agent carries the pause flag. */
  ghost predicate PauseTaken(q: Queue) {
    forall ext :: IsIdle(q, ext) ==> !q.agents[ext].paused
  }

  /** A step stamps the idle time exactly when the agent turns available. */
  lemma StepStampsIdle(q: Queue, e: Event, at: int, ext: string)
    requires PauseTaken(q)
    ensures PauseTaken(Step(q, e, at))
    ensures IsIdle(Step(q, e, at), ext) ==>
      Step(q, e, at).agents[ext].idleSince == if IsIdle(q, ext) then q.agents[ext].idleSince else at
  {
  }

  /** The stored idle time is the time of the last turn to available, on every run. */
  lemma {:induction false} IdleSinceIsTrue(q: Queue, run: Run<Timed<Event>>, ext: string)
    requires Fresh(q)
    ensures PauseTaken(After(q, run))
    ensures IsIdle(After(q, run), ext) ==> After(q, run).agents[ext].idleSince == BecameIdle(q, run, ext)
  {
    if run.Then? {
      IdleSinceIsTrue(q, run.before, ext);
      StepStampsIdle(After(q, run.before), run.last.event, run.last.at, ext);
    }
  }

  /**
   * No overtaking: after any run, the longest-idle policy never picks an agent
   * that turned available strictly later than one that is available now and
   * not excluded.
   */
  lemma NoOvertaking(q: Queue, run: Run<Timed<Event>>, exclude: set<string>, ext: string)
    requires Valid(q) && Fresh(q) && q.strategy.LongestIdle?
    requires Eligible(After(q, run), ext, exclude)
    ensures var chosen := Chosen(After(q, run), exclude).agent;
      chosen.Some? && BecameIdle(q, run, chosen.value) <= BecameIdle(q, run, ext)
  {
    RosterFixed(q, run);
    var now := After(q, run);
    ChosenIsEligible(now, exclude);
    LongestIdleIs(now, exclude, |now.roster|);
    assert ext in now.roster;
    IdleSinceIsTrue(q, run, ext);
    IdleSinceIsTrue(q, run, Chosen(now, exclude).agent.value);
  }
}
