/**
 * The audit service: every event goes to a newest-first ring buffer and to a
 * flush queue. A flush takes the whole queue as its batch, and while its insert
 * is in flight further events may be logged and further flushes may be asked
 * for; a failed insert puts the batch back in front.
 */
module AuditLog {
  import opened Common

  const MAX_ENTRIES: nat := 5000

  /** An audit entry, known by its unique id. */
  type Entry = int

  /**
   * `inFlight` holds the local batch of every flush that awaits its insert, in
   * the order they began; `flushing` is the flag that is meant to keep them to
   * one. `persisted` is the database table.
   */
  datatype State = State(
    logs: seq<Entry>,
    pending: seq<Entry>,
    flushing: bool,
    inFlight: seq<seq<Entry>>,
    persisted: seq<Entry>)

  const EMPTY: State := State([], [], false, [], [])

  function Take(entries: seq<Entry>, n: nat): seq<Entry> {
    if |entries| > n then entries[..n] else entries
  }

  function Without<T>(items: seq<T>, i: nat): seq<T>
    requires i < |items|
  {
    items[..i] + items[i + 1..]
  }

  function Logged(s: State, enabled: bool, e: Entry): State {
    if !enabled then s else s.(logs := Take([e] + s.logs, MAX_ENTRIES), pending := s.pending + [e])
  }

  function FlushBegun(s: State, enabled: bool): State {
    if !enabled || s.flushing || s.pending == [] then s
    else s.(flushing := true, inFlight := s.inFlight + [s.pending], pending := [])
  }

  /** The insert of the `i`-th flush in flight succeeded. */
  function FlushDone(s: State, i: nat): State
    requires i < |s.inFlight|
  {
    s.(persisted := s.persisted + s.inFlight[i], inFlight := Without(s.inFlight, i), flushing := false)
  }

  function FlushFailed(s: State, i: nat): State
    requires i < |s.inFlight|
  {
    s.(pending := Take(s.inFlight[i] + s.pending, MAX_ENTRIES), inFlight := Without(s.inFlight, i), flushing := false)
  }

  class AuditService {
    const enabled: bool
    var logs: seq<Entry>
    var pending: seq<Entry>
    var flushing: bool
    var inFlight: seq<seq<Entry>>
    var persisted: seq<Entry>

    ghost function Model(): State
      reads this
    {
      State(logs, pending, flushing, inFlight, persisted)
    }

    constructor (enabled: bool)
      ensures this.enabled == enabled && Model() == EMPTY
    {
      this.enabled := enabled;
      logs, pending, flushing, inFlight, persisted := [], [], false, [], [];
    }

    method Log(e: Entry)
      modifies this
      ensures Model() == Logged(old(Model()), enabled, e)
    {
      if !enabled {
        return;
      }
      logs := [e] + logs;
      if |logs| > MAX_ENTRIES {
        logs := logs[..MAX_ENTRIES];
      }
      pending := pending + [e];
    }

    /** `flush` up to its first await. */
    method BeginFlush()
      modifies this
      ensures Model() == FlushBegun(old(Model()), enabled)
    {
      if !enabled || flushing || |pending| == 0 {
        return;
      }
      flushing := true;
      var batch := pending;
      pending := [];
      inFlight := inFlight + [batch];
    }

    /** The `i`-th flush in flight after its insert, which is all or nothing. */
    method EndFlush(i: nat, inserted: bool)
      requires i < |inFlight|
      modifies this
      ensures Model() == if inserted then FlushDone(old(Model()), i) else FlushFailed(old(Model()), i)
    {
      var batch := inFlight[i];
      inFlight := Without(inFlight, i);
      if inserted {
        persisted := persisted + batch;
      } else {
        pending := batch + pending;
        if |pending| > MAX_ENTRIES {
          pending := pending[..MAX_ENTRIES];
        }
      }
      flushing := false;
    }
  }

  // ----- whole runs -----

  /** Any flush in flight may end next. */
  datatype Event = Log(entry: Entry) | Begin | Succeed(i: nat) | Fail(i: nat)

  ghost function StepWith(s: State, enabled: bool, e: Event): State {
    match e
    case Log(entry) => Logged(s, enabled, entry)
    case Begin => FlushBegun(s, enabled)
    case Succeed(i) => if i < |s.inFlight| then FlushDone(s, i) else s
    case Fail(i) => if i < |s.inFlight| then FlushFailed(s, i) else s
  }

  ghost function Step(s: State, e: Event): State {
    StepWith(s, true, e)
  }

  ghost function After(run: Run<Event>): State {
    match run
    case Start => EMPTY
    case Then(before, e) => Step(After(before), e)
  }

  /** A service that is switched off. */
  ghost function AfterDisabled(run: Run<Event>): State {
    match run
    case Start => EMPTY
    case Then(before, e) => StepWith(AfterDisabled(before), false, e)
  }

  /** Switched off, the service neither buffers nor persists anything, ever. */
  lemma {:induction false} DisabledKeepsNothing(run: Run<Event>)
    ensures AfterDisabled(run) == EMPTY
  {
    if run.Then? {
      DisabledKeepsNothing(run.before);
    }
  }

  /** The flag tells the truth, and there is at most one batch to tell of. */
  ghost predicate OneBatch(s: State) {
    |s.inFlight| <= 1 && (s.flushing <==> |s.inFlight| == 1)
  }

  /** Never two batches in flight, on any run. */
  lemma {:induction false} NeverTwoBatches(run: Run<Event>)
    ensures OneBatch(After(run))
  {
    if run.Then? {
      NeverTwoBatches(run.before);
    }
  }

  /** Every event logged so far, oldest first. */
  ghost function History(run: Run<Event>): seq<Entry> {
    match run
    case Start => []
    case Then(before, Log(entry)) => History(before) + [entry]
    case Then(before, _) => History(before)
  }

  ghost function Joined(batches: seq<seq<Entry>>): seq<Entry> {
    if batches == [] then [] else Joined(batches[..|batches| - 1]) + batches[|batches| - 1]
  }

  /** What is safe or still on its way: the table, then all batches in flight, then the queue. */
  ghost function Pipeline(s: State): seq<Entry> {
    s.persisted + Joined(s.inFlight) + s.pending
  }

  /** The event is a failure of a flush in flight. */
  ghost predicate Fails(s: State, e: Event) {
    e.Fail? && e.i < |s.inFlight|
  }

  /** A failed flush found more than fits. */
  ghost predicate Overflowed(run: Run<Event>) {
    run.Then? &&
      (Overflowed(run.before)
       || (var s := After(run.before);
           Fails(s, run.last) && |s.inFlight[run.last.i]| + |s.pending| > 5000))
  }

  /** How much of the pipeline survives a failure of the flush in flight. */
  ghost function Kept(s: State): nat {
    |s.persisted| + Min(|Joined(s.inFlight)| + |s.pending|, MAX_ENTRIES)
  }

  lemma JoinedOne(batch: seq<Entry>)
    ensures Joined([batch]) == batch
  {
    assert [batch][..0] == [];
  }

  lemma NoneInFlight(s: State)
    requires s.inFlight == []
    ensures Pipeline(s) == s.persisted + s.pending
  {
  }

  lemma OneInFlight(s: State, batch: seq<Entry>)
    requires s.inFlight == [batch]
    ensures Pipeline(s) == s.persisted + batch + s.pending
  {
    JoinedOne(batch);
  }

  lemma BeginKeepsPipeline(s: State)
    requires OneBatch(s)
    ensures Pipeline(FlushBegun(s, true)) == Pipeline(s)
  {
    if !s.flushing && s.pending != [] {
      NoneInFlight(s);
      OneInFlight(FlushBegun(s, true), s.pending);
    }
  }

  /** The one batch in flight, as the pipeline sees it. */
  lemma TheBatch(s: State, i: nat)
    requires OneBatch(s) && i < |s.inFlight|
    ensures i == 0 && Joined(s.inFlight) == s.inFlight[i] && Without(s.inFlight, i) == []
  {
    assert s.inFlight == [s.inFlight[0]];
    JoinedOne(s.inFlight[0]);
  }

  lemma DoneKeepsPipeline(s: State, i: nat)
    requires OneBatch(s) && i < |s.inFlight|
    ensures Pipeline(FlushDone(s, i)) == Pipeline(s)
  {
    TheBatch(s, i);
  }

  lemma FailedCutsPipeline(s: State, i: nat)
    requires OneBatch(s) && i < |s.inFlight|
    ensures Kept(s) <= |Pipeline(s)| && Pipeline(FlushFailed(s, i)) == Pipeline(s)[..Kept(s)]
  {
    TheBatch(s, i);
    assert Pipeline(s) == s.persisted + (s.inFlight[i] + s.pending);
  }

  /** Logging appends to the pipeline, a failed flush may cut its end off, nothing else changes it. */
  lemma PipelineStep(s: State, e: Event)
    requires OneBatch(s)
    ensures e.Log? ==> Pipeline(Step(s, e)) == Pipeline(s) + [e.entry]
    ensures Fails(s, e) ==> Kept(s) <= |Pipeline(s)| && Pipeline(Step(s, e)) == Pipeline(s)[..Kept(s)]
    ensures !e.Log? && !Fails(s, e) ==> Pipeline(Step(s, e)) == Pipeline(s)
  {
    match e
    case Log(entry) =>
      assert Pipeline(Step(s, e)) == Pipeline(s) + [entry];
    case Begin =>
      BeginKeepsPipeline(s);
    case Succeed(i) =>
      if i < |s.inFlight| {
        DoneKeepsPipeline(s, i);
      }
    case Fail(i) =>
      if i < |s.inFlight| {
        FailedCutsPipeline(s, i);
      }
  }

  /**
   * Nothing is reordered or duplicated: the table, the batches in flight and the
   * queue, in this order, are the logged events with at most some left out, and
   * something is left out exactly when a failed flush has overflowed.
   */
  lemma {:induction false} PipelineInOrder(run: Run<Event>)
    ensures Subsequence(Pipeline(After(run)), History(run))
    ensures !Overflowed(run) ==> Pipeline(After(run)) == History(run)
    ensures Overflowed(run) ==> |Pipeline(After(run))| < |History(run)|
  {
    if run.Then? {
      var s, past := After(run.before), History(run.before);
      PipelineInOrder(run.before);
      NeverTwoBatches(run.before);
      PipelineStep(s, run.last);
      if run.last.Log? {
        SubsequenceAppend(Pipeline(s), past, [run.last.entry]);
      } else if Fails(s, run.last) {
        TheBatch(s, run.last.i);
        SubsequencePrefix(Pipeline(s), past, Kept(s));
        assert !Overflowed(run) ==> Pipeline(s)[..Kept(s)] == Pipeline(s);
      }
    }
  }

  /** The table only ever grows at its end, and without an overflow it is the oldest events, gapless. */
  lemma PersistedInOrder(run: Run<Event>)
    ensures Subsequence(After(run).persisted, History(run))
    ensures !Overflowed(run) ==> After(run).persisted <= History(run)
  {
    PipelineInOrder(run);
    var all := Pipeline(After(run));
    SubsequencePrefix(all, History(run), |After(run).persisted|);
    assert all[..|After(run).persisted|] == After(run).persisted;
  }

  /** A flush that is asked for while none is in flight takes everything that is queued; otherwise it takes nothing. */
  lemma FlushTakesAll(s: State)
    requires OneBatch(s)
    ensures s.inFlight == [] && s.pending != [] ==>
      Step(s, Begin).inFlight == [s.pending] && Step(s, Begin).pending == []
    ensures s.inFlight != [] || s.pending == [] ==> Step(s, Begin) == s
  {
    assert s.inFlight == [] ==> s.inFlight + [s.pending] == [s.pending];
  }

  lemma DrainedByOne(s: State)
    requires OneBatch(s) && s.inFlight == []
    ensures var drained := Step(Step(s, Begin), Succeed(0));
      drained.persisted == s.persisted + s.pending && drained.pending == [] && drained.inFlight == []
  {
    FlushTakesAll(s);
    if s.pending == [] {
      assert s.persisted + s.pending == s.persisted;
    } else {
      assert Without([s.pending], 0) == [];
    }
  }

  /**
   * Everything gets through: from wherever a run has come to, a flush in flight
   * that succeeds and one more that does leave the whole pipeline in the table,
   * in order; without an overflow that is every event ever logged.
   */
  lemma {:induction false} TwoFlushesDrain(run: Run<Event>)
    ensures var drained := Step(Step(Step(After(run), Succeed(0)), Begin), Succeed(0));
      && drained.persisted == Pipeline(After(run)) && drained.pending == [] && drained.inFlight == []
      && (!Overflowed(run) ==> drained.persisted == History(run))
  {
    NeverTwoBatches(run);
    PipelineInOrder(run);
    var s := After(run);
    var landed := Step(s, Succeed(0));
    PipelineStep(s, Succeed(0));
    if |s.inFlight| == 1 {
      TheBatch(s, 0);
    }
    NoneInFlight(landed);
    DrainedByOne(landed);
  }

  ghost function Reversed(entries: seq<Entry>): seq<Entry> {
    if entries == [] then [] else [entries[|entries| - 1]] + Reversed(entries[..|entries| - 1])
  }

  /** The ring buffer shows exactly the newest events, newest first. */
  lemma {:induction false} RingShowsNewest(run: Run<Event>)
    ensures var newest := Reversed(History(run));
      After(run).logs == if |newest| > 5000 then newest[..5000] else newest
  {
    match run
    case Start =>
    case Then(before, Log(entry)) =>
      RingShowsNewest(before);
      assert (History(before) + [entry])[..|History(before)|] == History(before);
      assert Reversed(History(run)) == [entry] + Reversed(History(before));
    case Then(before, _) =>
      RingShowsNewest(before);
  }
}
