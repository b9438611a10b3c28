/**
 * The live call-metrics tracker: concurrency and outbound calls per second,
 * derived from the stream of call updates. Only the last second of outbound
 * starts is kept, yet the reported peaks are peaks of the whole run.
 */
module CallMetrics {
  import opened CallStatuses
  import opened Common
  import opened Windows
  import CallRate

  const STALE_MS: int := 4 * 60 * 60 * 1000

  datatype Direction = Inbound | Outbound

  datatype Leg = Leg(direction: Direction, startedAt: int)

  type Legs = map<string, Leg>

  datatype Metrics = Metrics(
    active: Legs,
    maxConcurrent: nat,
    peakInboundConcurrent: nat,
    outbound: CallRate.Rate)

  predicate IsActive(status: CallStatus) {
    status.Ringing? || status.Answered?
  }

  function InboundIds(active: Legs): set<string> {
    set id | id in active && active[id].direction.Inbound?
  }

  predicate BecomesOutbound(active: Legs, id: string, direction: Direction) {
    direction.Outbound? && !(id in active && active[id].direction.Outbound?)
  }

  /** Does this update count as the start of an outbound call? */
  predicate StartsOutbound(active: Legs, id: string, status: CallStatus, direction: Direction) {
    id != "" && IsActive(status) && BecomesOutbound(active, id, direction)
  }

  function WithPeaks(m: Metrics): Metrics {
    m.(maxConcurrent := Max(m.maxConcurrent, |m.active|),
       peakInboundConcurrent := Max(m.peakInboundConcurrent, |InboundIds(m.active)|))
  }

  function Polled(m: Metrics, now: int): Metrics {
    m.(outbound := CallRate.Polled(m.outbound, now))
  }

  function Upserted(m: Metrics, id: string, status: CallStatus, direction: Direction, now: int): Metrics {
    if id == "" then m
    else
      var moved :=
        if !IsActive(status) then m.(active := m.active - {id})
        else m.(active := m.active[id := Leg(direction, if id in m.active then m.active[id].startedAt else now)]);
      var counted := if StartsOutbound(m.active, id, status, direction) then moved.(outbound := CallRate.Began(moved.outbound, now)) else moved;
      Polled(WithPeaks(counted), now)
  }

  /** The legs young enough to be believed. */
  function Fresh(active: Legs, now: int): Legs {
    map id | id in active && active[id].startedAt >= now - STALE_MS :: active[id]
  }

  function Ticked(m: Metrics, now: int): Metrics {
    var kept := m.(active := Fresh(m.active, now));
    Polled(if kept.active == m.active then m else WithPeaks(kept), now)
  }

  datatype Snapshot = Snapshot(activeTotal: nat, activeInbound: nat, activeOutbound: int, maxConcurrent: nat,
                               peakInboundConcurrent: nat, outboundCurrentCps: nat, outboundPeakCps: nat)

  function SnapshotOf(m: Metrics): Snapshot {
    Snapshot(|m.active|, |InboundIds(m.active)|, |m.active| - |InboundIds(m.active)|, m.maxConcurrent,
             m.peakInboundConcurrent, |m.outbound.starts|, m.outbound.peak)
  }

  /** Counting the members of `all` among the elements still to come, one element at a time. */
  lemma OneLess<T>(all: set<T>, todo: set<T>, x: T)
    requires x in todo
    ensures |all * todo| == |all * (todo - {x})| + (if x in all then 1 else 0)
  {
    assert all * todo == if x in all then all * (todo - {x}) + {x} else all * (todo - {x});
  }

  class CallMetricsService {
    var active: Legs
    var maxConcurrent: nat
    var peakInboundConcurrent: nat
    var outboundStarts: seq<int>
    var outboundPeakCps: nat

    ghost function Model(): Metrics
      reads this
    {
      Metrics(active, maxConcurrent, peakInboundConcurrent, CallRate.Rate(outboundStarts, outboundPeakCps))
    }

    constructor ()
      ensures Model() == Metrics(map[], 0, 0, CallRate.Rate([], 0))
    {
      active, maxConcurrent, peakInboundConcurrent, outboundStarts, outboundPeakCps := map[], 0, 0, [], 0;
    }

    method OnCall(id: string, status: CallStatus, direction: Direction, now: int) returns (snap: Option<Snapshot>)
      modifies this
      ensures Model() == Upserted(old(Model()), id, status, direction, now)
      ensures snap == if id == "" then None else Some(SnapshotOf(Model()))
    {
      if id == "" {
        return None;
      }
      if IsActive(status) {
        var becameOutbound := direction.Outbound? && !(id in active && active[id].direction.Outbound?);
        active := active[id := Leg(direction, if id in active then active[id].startedAt else now)];
        if becameOutbound {
          RecordOutboundStart(now);
        }
      } else {
        active := active - {id};
      }
      RecomputePeaks();
      var current := GetSnapshot(now);
      snap := Some(current);
    }

    method RecordOutboundStart(now: int)
      modifies this
      ensures Model() == old(Model()).(outbound := CallRate.Began(old(Model()).outbound, now))
    {
      outboundStarts := outboundStarts + [now];
      TrimCps(now);
      var cps := |outboundStarts|;
      if cps > outboundPeakCps {
        outboundPeakCps := cps;
      }
    }

    method TrimCps(now: int)
      modifies this`outboundStarts
      ensures outboundStarts == CallRate.Trim(old(outboundStarts), now)
    {
      var cutoff := now - CallRate.CPS_WINDOW_MS;
      while |outboundStarts| > 0 && outboundStarts[0] < cutoff
        invariant CallRate.Trim(outboundStarts, now) == CallRate.Trim(old(outboundStarts), now)
        decreases |outboundStarts|
      {
        outboundStarts := outboundStarts[1..];
      }
    }

    method CountInbound() returns (inbound: nat)
      ensures inbound == |InboundIds(active)|
    {
      inbound := 0;
      var todo := active.Keys;
      assert InboundIds(active) * todo == InboundIds(active);
      while todo != {}
        invariant todo <= active.Keys
        invariant inbound + |InboundIds(active) * todo| == |InboundIds(active)|
        decreases todo
      {
        var id :| id in todo;
        OneLess(InboundIds(active), todo, id);
        todo := todo - {id};
        if active[id].direction.Inbound? {
          inbound := inbound + 1;
        }
      }
    }

    method RecomputePeaks()
      modifies this`maxConcurrent, this`peakInboundConcurrent
      ensures Model() == WithPeaks(old(Model()))
    {
      var total := |active|;
      if total > maxConcurrent {
        maxConcurrent := total;
      }
      var inbound := CountInbound();
      if inbound > peakInboundConcurrent {
        peakInboundConcurrent := inbound;
      }
    }

    method SweepStale(now: int)
      modifies this
      ensures Polled(Model(), now) == Ticked(old(Model()), now)
      ensures outboundStarts == old(outboundStarts)
    {
      var cutoff := now - STALE_MS;
      var changed := false;
      var todo := active.Keys;
      while todo != {}
        invariant todo <= old(active).Keys
        invariant active == map id | id in old(active) && (id in todo || old(active)[id].startedAt >= cutoff) :: old(active)[id]
        invariant !changed <==> active == old(active)
        invariant Model() == old(Model()).(active := active)
        decreases |todo|
      {
        var id :| id in todo;
        todo := todo - {id};
        if active[id].startedAt < cutoff {
          active := active - {id};
          changed := true;
        }
      }
      assert active == Fresh(old(active), now);
      if changed {
        RecomputePeaks();
      }
    }

    method GetSnapshot(now: int) returns (snap: Snapshot)
      modifies this`outboundStarts
      ensures Model() == Polled(old(Model()), now)
      ensures snap == SnapshotOf(Model())
    {
      TrimCps(now);
      var inbound := CountInbound();
      snap := Snapshot(|active|, inbound, |active| - inbound, maxConcurrent, peakInboundConcurrent,
                       |outboundStarts|, outboundPeakCps);
    }

    /** The heartbeat: sweep, then report. */
    method Tick(now: int) returns (snap: Snapshot)
      modifies this
      ensures Model() == Ticked(old(Model()), now)
      ensures snap == SnapshotOf(Model())
    {
      SweepStale(now);
      snap := GetSnapshot(now);
    }
  }

  lemma SubsetSize<T>(a: set<T>, b: set<T>)
    requires a <= b
    ensures |a| <= |b|
  {
    assert |b - a| == |b| - |a|;
  }

  // ----- whole runs -----

  datatype Event =
    | Call(id: string, status: CallStatus, direction: Direction)
    | Heartbeat
    | Poll

  ghost function After(run: Run<Timed<Event>>): Metrics {
    match run
    case Start => Metrics(map[], 0, 0, CallRate.Rate([], 0))
    case Then(before, Timed(Call(id, status, direction), at)) => Upserted(After(before), id, status, direction, at)
    case Then(before, Timed(Heartbeat, at)) => Ticked(After(before), at)
    case Then(before, Timed(Poll, at)) => Polled(After(before), at)
  }

  /**
   * The leg of a call as the updates tell it: there from the first that says it
   * rings or was answered, in the direction of the latest, until one says
   * anything else, or for four hours and the next heartbeat.
   */
  ghost function LegOf(run: Run<Timed<Event>>, id: string): Option<Leg> {
    match run
    case Start => None
    case Then(before, Timed(Call(who, status, direction), at)) =>
      var leg := LegOf(before, id);
      if who != id || id == "" then leg
      else if status.Ringing? || status.Answered? then Some(Leg(direction, if leg.Some? then leg.value.startedAt else at))
      else None
    case Then(before, Timed(Heartbeat, at)) =>
      var leg := LegOf(before, id);
      if leg.Some? && leg.value.startedAt < at - 14400000 then None else leg
    case Then(before, Timed(Poll, _)) => LegOf(before, id)
  }

  /** When outbound calls started: at an update that makes a leg outbound that was none, or was inbound. */
  ghost function Starts(run: Run<Timed<Event>>): Times {
    match run
    case Start => Start
    case Then(before, Timed(Call(id, status, direction), at)) =>
      var leg, next := LegOf(before, id), LegOf(run, id);
      if id != "" && next.Some? && next.value.direction.Outbound? && !(leg.Some? && leg.value.direction.Outbound?)
      then Then(Starts(before), at) else Starts(before)
    case Then(before, _) => Starts(before)
  }

  ghost predicate Shows(active: Legs, id: string, leg: Option<Leg>) {
    (id in active <==> leg.Some?) && (id in active ==> active[id] == leg.value)
  }

  /** On every run the active legs are exactly those that the updates tell of. */
  lemma {:induction false} LegsAreHistory(run: Run<Timed<Event>>, id: string)
    ensures Shows(After(run).active, id, LegOf(run, id)) && (id == "" ==> LegOf(run, id).None?)
  {
    if run.Then? {
      LegsAreHistory(run.before, id);
    }
  }

  /** The same run as the outbound rate sees it: starts and trims. */
  ghost function Beats(run: Run<Timed<Event>>): Run<Timed<CallRate.Beat>> {
    match run
    case Start => Start
    case Then(before, Timed(Call(id, status, direction), at)) =>
      if id == "" then Beats(before)
      else if StartsOutbound(After(before).active, id, status, direction)
      then Then(Then(Beats(before), Timed(CallRate.Begin, at)), Timed(CallRate.Poll, at))
      else Then(Beats(before), Timed(CallRate.Poll, at))
    case Then(before, t) => Then(Beats(before), Timed(CallRate.Poll, t.at))
  }

  lemma {:induction false} BeatsAgree(run: Run<Timed<Event>>)
    requires Timely(run)
    ensures Timely(Beats(run)) && Clock(Beats(run)) <= Clock(run)
    ensures CallRate.After(Beats(run)) == After(run).outbound
    ensures CallRate.Starts(Beats(run)) == Starts(run)
  {
    if run.Then? {
      var before, event, at := run.before, run.last.event, run.last.at;
      BeatsAgree(before);
      if event.Call? {
        LegsAreHistory(before, event.id);
      }
      var m, beats := After(before), Beats(before);
      if event.Call? && event.id != "" && StartsOutbound(m.active, event.id, event.status, event.direction) {
        var begun := Then(beats, Timed(CallRate.Begin, at));
        assert CallRate.After(begun) == CallRate.Began(m.outbound, at);
        assert CallRate.Starts(begun) == Then(Starts(before), at);
      } else if !(event.Call? && event.id == "") {
        assert After(run).outbound == CallRate.Polled(m.outbound, at);
      }
    }
  }

  /** Every reported current rate is the number of outbound starts in the last second of the whole run. */
  lemma CurrentCpsIsExact(run: Run<Timed<Event>>)
    requires Timely(run) && run.Then? && !(run.last.event.Call? && run.last.event.id == "")
    ensures SnapshotOf(After(run)).outboundCurrentCps
      == CallRate.StartsInSecond(Starts(run), run.last.at - CallRate.CPS_WINDOW_MS)
  {
    BeatsAgree(run);
    CallRate.CurrentIsExact(Beats(run));
  }

  /**
   * The reported outbound peak is the largest number of outbound starts in any
   * closed one-second interval of the whole run: no interval has more, and the
   * interval from `x` has exactly as many.
   */
  lemma PeakCpsIsLargest(run: Run<Timed<Event>>) returns (x: int)
    requires Timely(run)
    ensures forall y :: CallRate.StartsInSecond(Starts(run), y) <= After(run).outbound.peak
    ensures CallRate.StartsInSecond(Starts(run), x) == After(run).outbound.peak
  {
    BeatsAgree(run);
    x := CallRate.PeakReached(Beats(run));
    forall y ensures CallRate.StartsInSecond(Starts(run), y) <= After(run).outbound.peak {
      CallRate.PeakBounds(Beats(run), y);
    }
  }

  /** The most legs that were ever active at once, over every state of the run. */
  ghost function MostActive(run: Run<Timed<Event>>): nat {
    Max(|After(run).active|, if run.Then? then MostActive(run.before) else 0)
  }

  ghost function MostInbound(run: Run<Timed<Event>>): nat {
    Max(|InboundIds(After(run).active)|, if run.Then? then MostInbound(run.before) else 0)
  }

  /** The concurrency peaks are the peaks over every state the run went through. */
  lemma {:induction false} ConcurrencyPeaks(run: Run<Timed<Event>>)
    ensures After(run).maxConcurrent == MostActive(run)
    ensures After(run).peakInboundConcurrent == MostInbound(run)
  {
    if run.Then? {
      ConcurrencyPeaks(run.before);
      if run.last.event.Heartbeat? {
        var active := After(run.before).active;
        var kept := Fresh(active, run.last.at);
        SubsetSize(kept.Keys, active.Keys);
        SubsetSize(InboundIds(kept), InboundIds(active));
      }
    } else {
      assert InboundIds(map[]) == {};
    }
  }

  /** The ids whose legs the updates tell of. */
  ghost predicate LiveIds(run: Run<Timed<Event>>, ids: set<string>, inbound: set<string>) {
    && (forall id :: id in ids <==> LegOf(run, id).Some?)
    && (forall id :: id in inbound <==> LegOf(run, id).Some? && LegOf(run, id).value.direction.Inbound?)
  }

  /** Every figure of every report is what the whole run says it is. */
  lemma SnapshotIsTrue(run: Run<Timed<Event>>, ids: set<string>, inbound: set<string>)
    requires Timely(run) && run.Then? && !(run.last.event.Call? && run.last.event.id == "") && LiveIds(run, ids, inbound)
    ensures var snap := SnapshotOf(After(run));
      && snap.activeTotal == |ids| && snap.activeInbound == |inbound| && snap.activeOutbound == |ids - inbound|
      && snap.maxConcurrent == MostActive(run) && snap.peakInboundConcurrent == MostInbound(run)
      && snap.outboundCurrentCps == CallRate.StartsInSecond(Starts(run), run.last.at - 1000)
      && (forall x :: CallRate.StartsInSecond(Starts(run), x) <= snap.outboundPeakCps)
      && (exists x :: CallRate.StartsInSecond(Starts(run), x) == snap.outboundPeakCps)
  {
    var active := After(run).active;
    forall id ensures id in ids <==> id in active
      ensures id in inbound <==> id in InboundIds(active)
    {
      LegsAreHistory(run, id);
    }
    assert ids == active.Keys && inbound == InboundIds(active);
    assert |ids - inbound| == |ids| - |inbound|;
    ConcurrencyPeaks(run);
    CurrentCpsIsExact(run);
    var x := PeakCpsIsLargest(run);
  }
}
