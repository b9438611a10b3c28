/**
 * The per-IP SIP request limiter of the SIP server (`checkSipRate`), as a
 * mutable table and as a step function on values, with the exact number of
 * requests it can let through in any time span.
 */
module RateLimiter {
  import opened Common
  import opened Windows

  datatype Entry = Entry(count: nat, resetAt: int)

  type Table = map<string, Entry>

  datatype Verdict = Verdict(table: Table, allowed: bool)

  /** A request, known by the address it comes from. */
  type Request = string

  /** One request from `ip` at time `now`, for a limit per window of `width`. */
  function Check(limit: nat, width: int, table: Table, ip: string, now: int): Verdict {
    if ip !in table || now > table[ip].resetAt then
      Verdict(table[ip := Entry(1, now + width)], true)
    else
      var count := table[ip].count + 1;
      Verdict(table[ip := table[ip].(count := count)], count <= limit)
  }

  class SipRateLimiter {
    const limit: nat
    const width: int
    var table: Table

    constructor (limit: nat, width: int)
      ensures this.limit == limit && this.width == width && table == map[]
    {
      this.limit, this.width, this.table := limit, width, map[];
    }

    method CheckSipRate(ip: string, now: int) returns (allowed: bool)
      modifies this
      ensures Verdict(table, allowed) == Check(limit, width, old(table), ip, now)
    {
      if ip !in table || now > table[ip].resetAt {
        table := table[ip := Entry(1, now + width)];
        return true;
      }
      var entry := table[ip];
      entry := entry.(count := entry.count + 1);
      table := table[ip := entry];
      return entry.count <= limit;
    }
  }

  // ----- whole runs -----

  /** The table after a run of requests that starts with an empty table. */
  ghost function After(limit: nat, width: int, run: Run<Timed<Request>>): Table {
    match run
    case Start => map[]
    case Then(before, req) => Check(limit, width, After(limit, width, before), req.event, req.at).table
  }

  /** When the run's requests from `ip` were let through. */
  ghost function Admitted(limit: nat, width: int, run: Run<Timed<Request>>, ip: string): Times {
    match run
    case Start => Start
    case Then(before, req) =>
      var times := Admitted(limit, width, before, ip);
      if req.event == ip && Check(limit, width, After(limit, width, before), ip, req.at).allowed
      then Then(times, req.at) else times
  }

  /**
   * The table entry of an IP is the fixed window over its admitted requests:
   * same start, and the same count until the limit cuts it off.
   */
  ghost predicate EntryTracksWindow(limit: nat, width: int, table: Table, ip: string, ts: Times, now: int) {
    && Sorted(ts) && Capped(ts, width, limit)
    && NoneAfter(ts, now)
    && (ip in table <==> ts.Then?)
    && (ip in table ==> Current(ts, width) == Window(table[ip].resetAt - width, Min(table[ip].count, limit)))
  }

  lemma EntryStep(limit: nat, width: int, table: Table, req: Timed<Request>, ip: string, ts: Times, now: int)
    requires limit >= 1 && width >= 0 && now <= req.at
    requires EntryTracksWindow(limit, width, table, ip, ts, now)
    ensures var v := Check(limit, width, table, req.event, req.at);
      EntryTracksWindow(limit, width, v.table, ip, if req.event == ip && v.allowed then Then(ts, req.at) else ts, req.at)
  {
  }

  lemma {:induction false} EntryAlways(limit: nat, width: int, run: Run<Timed<Request>>, ip: string)
    requires limit >= 1 && width >= 0 && Timely(run)
    ensures EntryTracksWindow(limit, width, After(limit, width, run), ip, Admitted(limit, width, run, ip), Clock(run))
  {
    match run
    case Start =>
    case Then(before, req) =>
      EntryAlways(limit, width, before, ip);
      EntryStep(limit, width, After(limit, width, before), req, ip, Admitted(limit, width, before, ip), Clock(before));
  }

  /**
   * The exact rule, on every run: a request is let through if and only if it is
   * the address's first, or its window has run out, or the window has let fewer
   * than `limit` through.
   */
  lemma AllowedIffRoom(limit: nat, width: int, run: Run<Timed<Request>>, ip: string, at: int)
    requires limit >= 1 && width >= 0 && Timely(run) && Clock(run) <= at
    ensures var ts := Admitted(limit, width, run, ip);
      Check(limit, width, After(limit, width, run), ip, at).allowed <==>
      ts.Start? || at > Current(ts, width).start + width || Current(ts, width).count < limit
  {
    EntryAlways(limit, width, run, ip);
  }

  /**
   * On every run, whatever the other addresses do, a closed interval of one
   * window's length never lets more than `2 * limit - 1` requests of one
   * address through.
   */
  lemma AdmissionBound(limit: nat, width: int, run: Run<Timed<Request>>, ip: string, x: int)
    requires limit >= 1 && width >= 0 && Timely(run)
    ensures Count(Admitted(limit, width, run, ip), x, x + width) <= 2 * limit - 1
  {
    EntryAlways(limit, width, run, ip);
    FixedWindowBound(Admitted(limit, width, run, ip), width, limit, x);
  }

  // ----- the bound is reached -----

  /** `k` more requests from `ip`, all at one instant. */
  ghost function Burst(run: Run<Timed<Request>>, ip: string, at: int, k: nat): Run<Timed<Request>> {
    if k == 0 then run else Then(Burst(run, ip, at, k - 1), Timed(ip, at))
  }

  /** Requests inside an open window are admitted while they fit, and all are counted. */
  lemma {:induction false} BurstAdmitted(limit: nat, width: int, run: Run<Timed<Request>>, ip: string, at: int, k: nat,
                                         x: int, e: Entry)
    requires Timely(run) && Clock(run) <= at
    requires ip in After(limit, width, run) && After(limit, width, run)[ip] == e
    requires at <= e.resetAt && e.count + k <= limit && x <= at <= x + width
    ensures var run' := Burst(run, ip, at, k);
      && Timely(run') && Clock(run') <= at
      && ip in After(limit, width, run') && After(limit, width, run')[ip] == e.(count := e.count + k)
      && Count(Admitted(limit, width, run', ip), x, x + width) == Count(Admitted(limit, width, run, ip), x, x + width) + k
  {
    if k > 0 {
      BurstAdmitted(limit, width, run, ip, at, k - 1, x, e);
    }
  }

  /** One request at 0, `limit - 1` at the window's end, then `limit` just after it. */
  ghost function WorstCase(limit: nat, width: int, ip: string): Run<Timed<Request>>
    requires limit >= 1
  {
    var first := Burst(Then(Start, Timed(ip, 0)), ip, width, limit - 1);
    Burst(Then(first, Timed(ip, width + 1)), ip, width + 1, limit - 1)
  }

  /** The first request after the window has run out opens the next one, which then fills up. */
  lemma Refill(limit: nat, width: int, run: Run<Timed<Request>>, ip: string, from: int, at: int, x: int)
    requires limit >= 1 && Timely(run) && Clock(run) <= from <= at <= from + width && x <= at <= x + width
    requires ip in After(limit, width, run) ==> from > After(limit, width, run)[ip].resetAt
    ensures var run' := Burst(Then(run, Timed(ip, from)), ip, at, limit - 1);
      && Timely(run') && Clock(run') <= at
      && ip in After(limit, width, run') && After(limit, width, run')[ip] == Entry(limit, from + width)
      && Count(Admitted(limit, width, run', ip), x, x + width)
         == Count(Admitted(limit, width, run, ip), x, x + width) + (if x <= from then limit else limit - 1)
  {
    BurstAdmitted(limit, width, Then(run, Timed(ip, from)), ip, at, limit - 1, x, Entry(1, from + width));
  }

  /** For every limit and every window the bound of `AdmissionBound` is met by some run. */
  lemma AdmissionBoundReached(limit: nat, width: int, ip: string)
    requires limit >= 1 && width >= 1
    ensures Timely(WorstCase(limit, width, ip))
    ensures Count(Admitted(limit, width, WorstCase(limit, width, ip), ip), width, width + width) == 2 * limit - 1
  {
    Refill(limit, width, Start, ip, 0, width, width);
    var first := Burst(Then(Start, Timed(ip, 0)), ip, width, limit - 1);
    Refill(limit, width, first, ip, width + 1, width + 1, width);
  }
}
