/**
 * Outbound calls per second: a list of recent starts that is trimmed to the
 * last second whenever it is touched, and the largest length it ever had.
 */
module CallRate {
  import opened Common
  import opened Windows

  const CPS_WINDOW_MS: int := 1000

  datatype Rate = Rate(starts: seq<int>, peak: nat)

  /** The starts without the leading ones that are older than the window. */
  function Trim(starts: seq<int>, now: int): seq<int> {
    if starts != [] && starts[0] < now - CPS_WINDOW_MS then Trim(starts[1..], now) else starts
  }

  function Began(rate: Rate, now: int): Rate {
    var starts := Trim(rate.starts + [now], now);
    Rate(starts, Max(rate.peak, |starts|))
  }

  function Polled(rate: Rate, now: int): Rate {
    rate.(starts := Trim(rate.starts, now))
  }

  // ----- whole runs -----

  datatype Beat = Begin | Poll

  ghost function After(beats: Run<Timed<Beat>>): Rate {
    match beats
    case Start => Rate([], 0)
    case Then(before, Timed(Begin, at)) => Began(After(before), at)
    case Then(before, Timed(Poll, at)) => Polled(After(before), at)
  }

  /** Every start of the run, trimmed or not. */
  ghost function Starts(beats: Run<Timed<Beat>>): Times {
    match beats
    case Start => Start
    case Then(before, Timed(Begin, at)) => Then(Starts(before), at)
    case Then(before, Timed(Poll, _)) => Starts(before)
  }

  /** How many starts fall in the closed second from `x`. */
  ghost function StartsInSecond(all: Times, x: int): nat {
    Count(all, x, x + 1000)
  }

  /** `kept` is the tail of `all`, and only starts older than the window at `now` are missing from it. */
  ghost predicate KeepsWindow(kept: seq<int>, all: Times, now: int)
    decreases |kept|
  {
    if kept == [] then all.Then? ==> all.last < now - CPS_WINDOW_MS
    else
      && all.Then? && all.last == kept[|kept| - 1]
      && KeepsWindow(kept[..|kept| - 1], all.before, now)
  }

  lemma {:induction false} KeepsWindowLater(kept: seq<int>, all: Times, now: int, later: int)
    requires KeepsWindow(kept, all, now) && now <= later
    ensures KeepsWindow(kept, all, later)
    decreases |kept|
  {
    if kept != [] {
      KeepsWindowLater(kept[..|kept| - 1], all.before, now, later);
    }
  }

  /** Trimming from the front, seen from the back. */
  lemma {:induction false} TrimSnoc(starts: seq<int>, t: int, now: int)
    ensures Trim(starts + [t], now)
      == if Trim(starts, now) == [] && t < now - CPS_WINDOW_MS then [] else Trim(starts, now) + [t]
    decreases |starts|
  {
    if starts != [] && starts[0] < now - CPS_WINDOW_MS {
      TrimSnoc(starts[1..], t, now);
      assert (starts + [t])[1..] == starts[1..] + [t];
    } else if starts == [] {
      assert starts + [t] == [t];
    }
  }

  /** One more start behind a trimmed list. */
  lemma TrimmedStep(trimmed: seq<int>, before: Times, t: int, now: int)
    requires Sorted(Then(before, t)) && t <= now && KeepsWindow(trimmed, before, now)
    requires |trimmed| == Count(before, now - CPS_WINDOW_MS, now)
    ensures var all := Then(before, t);
      var more := if trimmed == [] && t < now - CPS_WINDOW_MS then [] else trimmed + [t];
      KeepsWindow(more, all, now) && |more| == Count(all, now - CPS_WINDOW_MS, now)
  {
    if t < now - CPS_WINDOW_MS {
      CountNone(before, now - CPS_WINDOW_MS, now);
    } else {
      assert (trimmed + [t])[..|trimmed|] == trimmed;
    }
  }

  /** A trimmed list keeps the window and has one entry for each start in the last second. */
  lemma {:induction false} TrimKeepsWindow(kept: seq<int>, all: Times, now: int)
    requires KeepsWindow(kept, all, now) && Sorted(all) && NoneAfter(all, now)
    ensures KeepsWindow(Trim(kept, now), all, now)
    ensures |Trim(kept, now)| == Count(all, now - CPS_WINDOW_MS, now)
    decreases |kept|
  {
    if kept == [] {
      CountNone(all, now - CPS_WINDOW_MS, now);
    } else {
      var init, t := kept[..|kept| - 1], kept[|kept| - 1];
      assert kept == init + [t];
      TrimKeepsWindow(init, all.before, now);
      TrimSnoc(init, t, now);
      TrimmedStep(Trim(init, now), all.before, t, now);
    }
  }

  lemma WindowStep(kept: seq<int>, all: Times, now: int, later: int)
    requires KeepsWindow(kept, all, now) && Sorted(all) && NoneAfter(all, now) && now <= later
    ensures KeepsWindow(Trim(kept, later), all, later)
    ensures |Trim(kept, later)| == Count(all, later - CPS_WINDOW_MS, later)
    ensures KeepsWindow(Trim(kept + [later], later), Then(all, later), later)
    ensures |Trim(kept + [later], later)| == Count(Then(all, later), later - CPS_WINDOW_MS, later)
  {
    KeepsWindowLater(kept, all, now, later);
    TrimKeepsWindow(kept, all, later);
    assert (kept + [later])[..|kept|] == kept;
    TrimKeepsWindow(kept + [later], Then(all, later), later);
  }

  /** The trimmed list always holds every start that any later window can still see. */
  lemma {:induction false} WindowIsKept(beats: Run<Timed<Beat>>)
    requires Timely(beats)
    ensures Sorted(Starts(beats)) && NoneAfter(Starts(beats), Clock(beats))
    ensures KeepsWindow(After(beats).starts, Starts(beats), Clock(beats))
  {
    if beats.Then? {
      WindowIsKept(beats.before);
      WindowStep(After(beats.before).starts, Starts(beats.before), Clock(beats.before), beats.last.at);
    }
  }

  lemma PolledCount(rate: Rate, all: Times, now: int, later: int)
    requires KeepsWindow(rate.starts, all, now) && Sorted(all) && NoneAfter(all, now) && now <= later
    ensures |Polled(rate, later).starts| == StartsInSecond(all, later - CPS_WINDOW_MS)
  {
    WindowStep(rate.starts, all, now, later);
  }

  lemma BeganCount(rate: Rate, all: Times, now: int, later: int)
    requires KeepsWindow(rate.starts, all, now) && Sorted(all) && NoneAfter(all, now) && now <= later
    ensures |Began(rate, later).starts| == StartsInSecond(Then(all, later), later - CPS_WINDOW_MS)
  {
    WindowStep(rate.starts, all, now, later);
  }

  /** Whenever it has just been touched, the list has one entry for each start of the last second of the whole run. */
  lemma {:induction false} CurrentIsExact(beats: Run<Timed<Beat>>)
    requires Timely(beats) && beats.Then?
    ensures |After(beats).starts| == StartsInSecond(Starts(beats), Clock(beats) - CPS_WINDOW_MS)
  {
    WindowIsKept(beats.before);
    match beats
    case Then(before, Timed(Begin, at)) => BeganCount(After(before), Starts(before), Clock(before), at);
    case Then(before, Timed(Poll, at)) => PolledCount(After(before), Starts(before), Clock(before), at);
  }

  /** A new start raises the peak exactly to the number of starts in its own last second. */
  lemma BeginStep(before: Run<Timed<Beat>>, at: int)
    requires Timely(before) && Clock(before) <= at
    ensures var all := Then(Starts(before), at);
      && Sorted(all)
      && Began(After(before), at).peak == Max(After(before).peak, StartsInSecond(all, at - CPS_WINDOW_MS))
  {
    WindowIsKept(before);
    WindowStep(After(before).starts, Starts(before), Clock(before), at);
  }

  /** No one-second interval of the whole run saw more starts than the reported peak. */
  lemma {:induction false} PeakBounds(beats: Run<Timed<Beat>>, x: int)
    requires Timely(beats)
    ensures StartsInSecond(Starts(beats), x) <= After(beats).peak
  {
    match beats
    case Start =>
    case Then(before, Timed(Poll, _)) =>
      PeakBounds(before, x);
    case Then(before, Timed(Begin, at)) =>
      PeakBounds(before, x);
      BeginStep(before, at);
      if x <= at <= x + CPS_WINDOW_MS {
        var all := Then(Starts(before), at);
        CountClip(all, x, x + CPS_WINDOW_MS, at);
        CountWiden(all, x, at, at - CPS_WINDOW_MS, at);
      }
  }

  /** Some one-second interval of the run saw exactly as many starts as the reported peak. */
  lemma {:induction false} PeakReached(beats: Run<Timed<Beat>>) returns (x: int)
    requires Timely(beats)
    ensures StartsInSecond(Starts(beats), x) == After(beats).peak
  {
    match beats
    case Start =>
      x := 0;
    case Then(before, Timed(Poll, _)) =>
      x := PeakReached(before);
    case Then(before, Timed(Begin, at)) =>
      x := PeakReached(before);
      BeginStep(before, at);
      PeakBounds(beats, x);
      if After(beats).peak > After(before).peak {
        x := at - CPS_WINDOW_MS;
      }
  }
}
