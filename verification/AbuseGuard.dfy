/**
 * The SIP abuse guard: offenses are tallied per source address in a fixed
 * window, a full tally bans the address for a while, authenticated successes
 * forgive a tally, and a periodic sweep drops idle records.
 */
module AbuseGuard {
  import opened Common
  import opened Windows

  datatype Record = Record(count: nat, windowStart: int, lastSeen: int, bannedUntil: int)

  type Records = map<string, Record>

  /** The guard's options as its constructor clamps them. */
  datatype Policy = Policy(threshold: int, windowMs: int, banMs: int, isTrusted: string -> bool) {
    predicate Valid() {
      threshold >= 1 && windowMs >= 1000 && banMs >= 1000
    }
  }

  function Clamp(threshold: int, windowMs: int, banMs: int, isTrusted: string -> bool): (p: Policy)
    ensures p.Valid() && p.isTrusted == isTrusted
    ensures p.threshold == threshold || threshold < 1 == p.threshold
    ensures p.windowMs == windowMs || windowMs < 1000 == p.windowMs
    ensures p.banMs == banMs || banMs < 1000 == p.banMs
  {
    Policy(Max(1, threshold), Max(1000, windowMs), Max(1000, banMs), isTrusted)
  }

  predicate IsBanned(records: Records, ip: string, now: int) {
    ip in records && records[ip].bannedUntil > now
  }

  /** Offenses by nobody in particular or by a trusted source are not recorded. */
  predicate Penalized(p: Policy, ip: string) {
    ip != "" && !p.isTrusted(ip)
  }

  function Offend(p: Policy, records: Records, ip: string, now: int): Records {
    if !Penalized(p, ip) then records
    else
      var rec :=
        if ip in records && now - records[ip].windowStart <= p.windowMs then records[ip]
        else Record(0, now, now, if ip in records then records[ip].bannedUntil else 0);
      var seen := rec.(count := rec.count + 1, lastSeen := now);
      var banned := seen.count >= p.threshold && seen.bannedUntil <= now;
      records[ip := if banned then seen.(bannedUntil := now + p.banMs) else seen]
  }

  function Forgive(records: Records, ip: string, now: int): Records {
    if ip in records && records[ip].bannedUntil <= now then records - {ip} else records
  }

  predicate Stale(p: Policy, rec: Record, now: int) {
    rec.bannedUntil <= now && now - rec.lastSeen >= p.windowMs
  }

  function Swept(p: Policy, records: Records, now: int): Records {
    map ip | ip in records && !Stale(p, records[ip], now) :: records[ip]
  }

  class SipAbuseGuard {
    const policy: Policy
    var records: Records

    constructor (threshold: int, windowMs: int, banMs: int, isTrusted: string -> bool)
      ensures policy == Clamp(threshold, windowMs, banMs, isTrusted) && records == map[]
    {
      policy := Clamp(threshold, windowMs, banMs, isTrusted);
      records := map[];
    }

    method RecordOffense(ip: string, now: int)
      modifies this
      ensures records == Offend(policy, old(records), ip, now)
    {
      if ip == "" || policy.isTrusted(ip) {
        return;
      }
      var rec: Record;
      if ip in records && now - records[ip].windowStart <= policy.windowMs {
        rec := records[ip];
      } else {
        rec := Record(0, now, now, if ip in records then records[ip].bannedUntil else 0);
      }
      rec := rec.(count := rec.count + 1);
      rec := rec.(lastSeen := now);
      if rec.count >= policy.threshold && rec.bannedUntil <= now {
        rec := rec.(bannedUntil := now + policy.banMs);
      }
      records := records[ip := rec];
    }

    method RecordSuccess(ip: string, now: int)
      modifies this
      ensures records == Forgive(old(records), ip, now)
    {
      if ip in records && records[ip].bannedUntil <= now {
        records := records - {ip};
      }
    }

    method Sweep(now: int)
      modifies this
      ensures records == Swept(policy, old(records), now)
    {
      var todo := records.Keys;
      while todo != {}
        invariant todo <= old(records).Keys
        invariant records == map ip | ip in old(records) && (ip in todo || !Stale(policy, old(records)[ip], now)) :: old(records)[ip]
      {
        var ip :| ip in todo;
        todo := todo - {ip};
        var rec := records[ip];
        var banned := rec.bannedUntil > now;
        var isFresh := now - rec.lastSeen < policy.windowMs;
        if !banned && !isFresh {
          records := records - {ip};
        }
      }
    }
  }

  // ----- whole runs -----

  datatype Event =
    | Offense(ip: string)
    | Success(ip: string)
    | Sweep

  /** The records after a run; `sweeping` false is a guard whose sweep does nothing. */
  ghost function After(p: Policy, run: Run<Timed<Event>>, sweeping: bool): Records {
    match run
    case Start => map[]
    case Then(before, Timed(Offense(ip), at)) => Offend(p, After(p, before, sweeping), ip, at)
    case Then(before, Timed(Success(ip), at)) => Forgive(After(p, before, sweeping), ip, at)
    case Then(before, Timed(Sweep, at)) =>
      if sweeping then Swept(p, After(p, before, sweeping), at) else After(p, before, sweeping)
  }

  /** When the run's recorded offenses by `ip` happened. */
  ghost function Offenses(p: Policy, run: Run<Timed<Event>>, ip: string): Times {
    match run
    case Start => Start
    case Then(before, Timed(Offense(who), at)) =>
      if who == ip && Penalized(p, ip) then Then(Offenses(p, before, ip), at) else Offenses(p, before, ip)
    case Then(before, _) => Offenses(p, before, ip)
  }

  /** How many of them fall in the closed span of one window's length from `x`. */
  ghost function OffensesWithin(p: Policy, run: Run<Timed<Event>>, ip: string, x: int): nat {
    Count(Offenses(p, run, ip), x, x + p.windowMs)
  }

  /** A trusted address, and an empty one, leaves no trace and is never banned. */
  lemma {:induction false} NotRecorded(p: Policy, run: Run<Timed<Event>>, ip: string, sweeping: bool)
    requires ip == "" || p.isTrusted(ip)
    ensures ip !in After(p, run, sweeping) && Offenses(p, run, ip) == Start
  {
    if run.Then? {
      NotRecorded(p, run.before, ip, sweeping);
    }
  }

  // ----- filling a window -----

  /** `k` more offenses by `ip`, all at one instant. */
  ghost function Spree(run: Run<Timed<Event>>, ip: string, at: int, k: nat): Run<Timed<Event>> {
    if k == 0 then run else Then(Spree(run, ip, at, k - 1), Timed(Offense(ip), at))
  }

  /** One offense at `from` and then, at `at`, as many more as a threshold leaves room for. */
  ghost function Filled(run: Run<Timed<Event>>, ip: string, from: int, at: int, threshold: int): Run<Timed<Event>>
    requires threshold >= 2
  {
    Spree(Then(run, Timed(Offense(ip), from)), ip, at, threshold - 2)
  }

  ghost predicate NeverForgiven(run: Run<Timed<Event>>, ip: string) {
    run.Then? ==> NeverForgiven(run.before, ip) && run.last.event != Success(ip)
  }

  /** `ip` has not been banned at any point of the run. */
  ghost predicate NeverBanned(p: Policy, run: Run<Timed<Event>>, ip: string, sweeping: bool) {
    && !IsBanned(After(p, run, sweeping), ip, Clock(run))
    && (run.Then? ==> NeverBanned(p, run.before, ip, sweeping))
  }

  /** A run that is in time and in which `ip` has been neither forgiven nor banned. */
  ghost predicate Unpunished(p: Policy, run: Run<Timed<Event>>, ip: string, sweeping: bool) {
    Timely(run) && NeverForgiven(run, ip) && NeverBanned(p, run, ip, sweeping)
  }

  lemma {:induction false} SpreeTallied(p: Policy, run: Run<Timed<Event>>, ip: string, at: int, k: nat, sweeping: bool,
                                        rec: Record, x: int)
    requires p.Valid() && Penalized(p, ip) && Unpunished(p, run, ip, sweeping) && 0 <= Clock(run) <= at
    requires ip in After(p, run, sweeping) && After(p, run, sweeping)[ip] == rec && rec.bannedUntil == 0
    requires at - rec.windowStart <= p.windowMs && rec.count + k < p.threshold && x <= at <= x + p.windowMs
    ensures var run' := Spree(run, ip, at, k);
      && Unpunished(p, run', ip, sweeping) && 0 <= Clock(run') <= at
      && ip in After(p, run', sweeping)
      && After(p, run', sweeping)[ip] == rec.(count := rec.count + k, lastSeen := if k == 0 then rec.lastSeen else at)
      && OffensesWithin(p, run', ip, x) == OffensesWithin(p, run, ip, x) + k
  {
    if k > 0 {
      SpreeTallied(p, run, ip, at, k - 1, sweeping, rec, x);
    }
  }

  /** A window filled to one below the threshold goes unpunished. */
  lemma FilledTallied(p: Policy, run: Run<Timed<Event>>, ip: string, from: int, at: int, sweeping: bool, x: int)
    requires p.Valid() && p.threshold >= 2 && Penalized(p, ip) && Unpunished(p, run, ip, sweeping)
    requires 0 <= Clock(run) <= from <= at <= from + p.windowMs && x <= at <= x + p.windowMs
    requires var records := After(p, run, sweeping);
      ip in records ==> from - records[ip].windowStart > p.windowMs && records[ip].bannedUntil == 0
    ensures var run' := Filled(run, ip, from, at, p.threshold);
      && Unpunished(p, run', ip, sweeping) && 0 <= Clock(run') <= at
      && ip in After(p, run', sweeping)
      && After(p, run', sweeping)[ip] == Record(p.threshold - 1, from, if p.threshold == 2 then from else at, 0)
      && OffensesWithin(p, run', ip, x)
         == OffensesWithin(p, run, ip, x) + p.threshold - (if x <= from then 1 else 2)
  {
    SpreeTallied(p, Then(run, Timed(Offense(ip), from)), ip, at, p.threshold - 2, sweeping, Record(1, from, from, 0), x);
  }

  // ----- when sweeping can be observed -----

  /** Two ban deadlines no query from `now` on can tell apart. */
  ghost predicate SameDeadline(a: int, b: int, now: int) {
    a == b || (a <= now && b <= now)
  }

  /** What a sweeping guard (`a`) still knows about the address, one that keeps everything (`b`) knows too. */
  ghost predicate SameTally(a: Records, b: Records, ip: string) {
    ip in a ==> ip in b && a[ip].(bannedUntil := 0) == b[ip].(bannedUntil := 0)
  }

  /** The offense finds its record swept away although its window is still open. */
  ghost predicate Missed(p: Policy, a: Records, b: Records, t: Timed<Event>, ip: string) {
    && t.event == Offense(ip) && Penalized(p, ip)
    && ip !in a && ip in b && t.at - b[ip].windowStart <= p.windowMs
  }

  ghost predicate NothingMissed(p: Policy, run: Run<Timed<Event>>, ip: string) {
    run.Then? ==>
      && NothingMissed(p, run.before, ip)
      && !Missed(p, After(p, run.before, true), After(p, run.before, false), run.last, ip)
  }

  /** The two guards' tallies of the address agree at every point of the run. */
  ghost predicate TalliesAgree(p: Policy, run: Run<Timed<Event>>, ip: string) {
    && SameTally(After(p, run, true), After(p, run, false), ip)
    && (run.Then? ==> TalliesAgree(p, run.before, ip))
  }

  /** How one address looks in the two guards. */
  ghost predicate Matches(a: Records, b: Records, ip: string, now: int) {
    && 0 <= now
    && SameTally(a, b, ip)
    && (ip in a ==> SameDeadline(a[ip].bannedUntil, b[ip].bannedUntil, now))
    && (ip in b ==> 1 <= b[ip].count && b[ip].windowStart <= b[ip].lastSeen <= now)
    && (ip in b && ip !in a ==> b[ip].bannedUntil <= now)
  }

  lemma {:induction false} SweptMatches(p: Policy, run: Run<Timed<Event>>, ip: string)
    requires p.Valid() && Timely(run) && NothingMissed(p, run, ip)
    ensures Matches(After(p, run, true), After(p, run, false), ip, Clock(run))
  {
    if run.Then? {
      SweptMatches(p, run.before, ip);
    }
  }

  /**
   * Over every run, the guards' tallies of an address agree at every point if
   * and only if no offense of the address misses a record.
   */
  lemma {:induction false} TalliesAgreeIff(p: Policy, run: Run<Timed<Event>>, ip: string)
    requires p.Valid() && Timely(run)
    ensures TalliesAgree(p, run, ip) <==> NothingMissed(p, run, ip)
  {
    if run.Then? {
      TalliesAgreeIff(p, run.before, ip);
      if NothingMissed(p, run.before, ip) {
        SweptMatches(p, run.before, ip);
      }
    }
    if NothingMissed(p, run, ip) {
      SweptMatches(p, run, ip);
    }
  }

  /**
   * A guard that sweeps at arbitrary times and one that never sweeps answer
   * every ban query alike, on every run whose offenses miss no record.
   */
  lemma SweepingUnobservable(p: Policy, run: Run<Timed<Event>>, ip: string, now: int)
    requires p.Valid() && Timely(run) && NothingMissed(p, run, ip) && Clock(run) <= now
    ensures IsBanned(After(p, run, true), ip, now) == IsBanned(After(p, run, false), ip, now)
  {
    SweptMatches(p, run, ip);
  }

  /** The time of the last sweep, if there was one. */
  ghost function LastSweep(run: Run<Timed<Event>>): Option<int> {
    match run
    case Start => None
    case Then(_, Timed(Sweep, at)) => Some(at)
    case Then(before, _) => LastSweep(before)
  }

  /** A record that only the keeping guard has was a window old at the last sweep. */
  lemma {:induction false} DroppedBySweep(p: Policy, run: Run<Timed<Event>>, ip: string)
    requires p.Valid() && Timely(run) && NothingMissed(p, run, ip)
    ensures ip in After(p, run, false) && ip !in After(p, run, true) ==>
      && LastSweep(run).Some?
      && After(p, run, false)[ip].lastSeen + p.windowMs <= LastSweep(run).value <= Clock(run)
  {
    if run.Then? {
      DroppedBySweep(p, run.before, ip);
      SweptMatches(p, run.before, ip);
    }
  }

  /**
   * The first record that is missed is missed at the very instant of the last
   * sweep, exactly one window after the record's only instant of offense.
   */
  lemma MissedOnlyAtASweep(p: Policy, run: Run<Timed<Event>>, t: Timed<Event>, ip: string)
    requires p.Valid() && Timely(Then(run, t)) && NothingMissed(p, run, ip)
    requires Missed(p, After(p, run, true), After(p, run, false), t, ip)
    ensures var rec := After(p, run, false)[ip];
      LastSweep(run) == Some(t.at) && rec.windowStart == rec.lastSeen == t.at - p.windowMs
  {
    DroppedBySweep(p, run, ip);
    SweptMatches(p, run, ip);
  }

  /** Every offense comes strictly later than every sweep before it. */
  ghost predicate OffensesAfterSweeps(run: Run<Timed<Event>>) {
    run.Then? ==>
      && OffensesAfterSweeps(run.before)
      && (run.last.event.Offense? && LastSweep(run.before).Some? ==> LastSweep(run.before).value < run.last.at)
  }

  /** Offenses that come strictly after the sweeps before them miss nothing. */
  lemma {:induction false} LaterOffensesMissNothing(p: Policy, run: Run<Timed<Event>>, ip: string)
    requires p.Valid() && Timely(run) && OffensesAfterSweeps(run)
    ensures NothingMissed(p, run, ip)
  {
    if run.Then? {
      LaterOffensesMissNothing(p, run.before, ip);
      if Missed(p, After(p, run.before, true), After(p, run.before, false), run.last, ip) {
        MissedOnlyAtASweep(p, run.before, run.last, ip);
      }
    }
  }

  /** `threshold - 1` offenses at 0, a sweep one window later, and one more offense at that instant. */
  ghost function SweptInTime(p: Policy, ip: string): Run<Timed<Event>>
    requires p.threshold >= 2
  {
    Then(Then(Filled(Start, ip, 0, 0, p.threshold), Timed(Sweep, p.windowMs)), Timed(Offense(ip), p.windowMs))
  }

  /** At the sweep's own instant the difference shows: the kept tally bans, the swept one does not. */
  lemma SweepingObservableAtItsInstant(p: Policy, ip: string)
    requires p.Valid() && p.threshold >= 2 && Penalized(p, ip)
    ensures var run := SweptInTime(p, ip);
      && Timely(run)
      && IsBanned(After(p, run, false), ip, p.windowMs) && !IsBanned(After(p, run, true), ip, p.windowMs)
  {
    FilledTallied(p, Start, ip, 0, 0, true, 0);
    FilledTallied(p, Start, ip, 0, 0, false, 0);
    var full := Filled(Start, ip, 0, 0, p.threshold);
    var swept := Then(full, Timed(Sweep, p.windowMs));
    assert Timely(swept) && ip !in After(p, swept, true) && After(p, swept, false) == After(p, full, false);
  }

  /** No run and no query ever tells the two guards apart. */
  ghost predicate NeverObservable(p: Policy, ip: string) {
    forall run: Run<Timed<Event>>, now: int | Timely(run) && Clock(run) <= now ::
      IsBanned(After(p, run, true), ip, now) == IsBanned(After(p, run, false), ip, now)
  }

  /** With a threshold of 1 every offense bans, whatever the tally. */
  lemma {:induction false} SameBansAtThresholdOne(p: Policy, run: Run<Timed<Event>>, ip: string)
    requires p.Valid() && p.threshold == 1 && Timely(run)
    ensures var a, b, now := After(p, run, true), After(p, run, false), Clock(run);
      && 0 <= now
      && (ip in a ==> ip in b && SameDeadline(a[ip].bannedUntil, b[ip].bannedUntil, now))
      && (ip in b && ip !in a ==> b[ip].bannedUntil <= now)
  {
    if run.Then? {
      SameBansAtThresholdOne(p, run.before, ip);
    }
  }

  /**
   * Which policies make sweeping unobservable on all runs whatsoever: exactly
   * those with a threshold of 1, and for addresses that are never penalized.
   */
  lemma NeverObservableIff(p: Policy, ip: string)
    requires p.Valid()
    ensures NeverObservable(p, ip) <==> p.threshold == 1 || !Penalized(p, ip)
  {
    if p.threshold >= 2 && Penalized(p, ip) {
      SweepingObservableAtItsInstant(p, ip);
    } else {
      forall run: Run<Timed<Event>>, now: int | Timely(run) && Clock(run) <= now
        ensures IsBanned(After(p, run, true), ip, now) == IsBanned(After(p, run, false), ip, now)
      {
        if p.threshold == 1 {
          SameBansAtThresholdOne(p, run, ip);
        } else {
          NotRecorded(p, run, ip, true);
          NotRecorded(p, run, ip, false);
        }
      }
    }
  }

  // ----- bans are justified and kept -----

  /** The run ends with an offense of `ip` that is at least the `threshold`-th within one window. */
  ghost predicate Justifies(p: Policy, run: Run<Timed<Event>>, ip: string) {
    && run.Then? && run.last.event == Offense(ip)
    && Count(Offenses(p, run, ip), run.last.at - p.windowMs, run.last.at) >= p.threshold
  }

  /** Some prefix of the run justifies a ban of `ip` that lasts until exactly `until`. */
  ghost predicate Justified(p: Policy, run: Run<Timed<Event>>, ip: string, until: int) {
    && run.Then?
    && ((Justifies(p, run, ip) && run.last.at + p.banMs == until) || Justified(p, run.before, ip, until))
  }

  /** A tally never exceeds the offenses since its window opened. */
  lemma {:induction false} TallyIsHistory(p: Policy, run: Run<Timed<Event>>, ip: string, sweeping: bool)
    requires p.Valid() && Timely(run)
    ensures var records := After(p, run, sweeping);
      ip in records ==>
        && Penalized(p, ip)
        && records[ip].windowStart <= records[ip].lastSeen <= Clock(run)
        && records[ip].lastSeen - records[ip].windowStart <= p.windowMs
        && records[ip].count <= Count(Offenses(p, run, ip), records[ip].windowStart, Clock(run))
  {
    if run.Then? {
      TallyIsHistory(p, run.before, ip, sweeping);
      var records := After(p, run.before, sweeping);
      var times := Offenses(p, run.before, ip);
      if ip in records {
        CountWiden(times, records[ip].windowStart, Clock(run.before), records[ip].windowStart, run.last.at);
      }
    }
  }

  /**
   * Every ban is justified: whenever an address is banned, an offense by it
   * that ended a window holding at least `threshold` of its offenses set the
   * ban, and the ban runs from that offense for exactly `banMs`.
   */
  lemma {:induction false} BansAreJustified(p: Policy, run: Run<Timed<Event>>, ip: string, sweeping: bool)
    requires p.Valid() && Timely(run)
    ensures var records := After(p, run, sweeping);
      ip in records && records[ip].bannedUntil != 0 ==> Justified(p, run, ip, records[ip].bannedUntil)
  {
    if run.Then? {
      BansAreJustified(p, run.before, ip, sweeping);
      TallyIsHistory(p, run, ip, sweeping);
      var records := After(p, run, sweeping);
      if run.last.event == Offense(ip) && ip in records {
        CountWiden(Offenses(p, run, ip), records[ip].windowStart, run.last.at, run.last.at - p.windowMs, run.last.at);
      }
    }
  }

  /** `run` continues `earlier` with events that all happen before `until`. */
  ghost predicate ContinuesBefore(run: Run<Timed<Event>>, earlier: Run<Timed<Event>>, until: int) {
    run == earlier || (run.Then? && run.last.at < until && ContinuesBefore(run.before, earlier, until))
  }

  /** Every ban is kept: nothing that happens before its deadline changes the deadline. */
  lemma {:induction false} BansAreKept(p: Policy, earlier: Run<Timed<Event>>, run: Run<Timed<Event>>, ip: string,
                                       sweeping: bool)
    requires ip in After(p, earlier, sweeping)
    requires ContinuesBefore(run, earlier, After(p, earlier, sweeping)[ip].bannedUntil)
    ensures var until := After(p, earlier, sweeping)[ip].bannedUntil;
      ip in After(p, run, sweeping) && After(p, run, sweeping)[ip].bannedUntil == until
  {
    if run != earlier {
      BansAreKept(p, earlier, run.before, ip, sweeping);
    }
  }

  // ----- which offenses force a ban -----

  /** An unbanned address's record is the fixed window over all its offenses. */
  ghost predicate TracksWindow(p: Policy, records: Records, ip: string, ts: Times, now: int)
    requires p.Valid()
  {
    && Sorted(ts) && Capped(ts, p.windowMs, p.threshold - 1)
    && NoneAfter(ts, now)
    && (ip in records <==> ts.Then?)
    && (ip in records ==>
          && records[ip].bannedUntil <= now
          && Current(ts, p.windowMs) == Window(records[ip].windowStart, records[ip].count))
  }

  /** The next offense bans exactly when it fills the window, and otherwise goes on tracking it. */
  lemma TracksWindowStep(p: Policy, records: Records, ip: string, ts: Times, now: int, at: int)
    requires p.Valid() && 0 <= at && now <= at && Penalized(p, ip) && TracksWindow(p, records, ip, ts, now)
    ensures var records' := Offend(p, records, ip, at);
      && (IsBanned(records', ip, at) <==> Current(Then(ts, at), p.windowMs).count >= p.threshold)
      && (!IsBanned(records', ip, at) ==> TracksWindow(p, records', ip, Then(ts, at), at))
  {
  }

  /** Without forgiveness and bans the kept record tracks the window throughout. */
  lemma {:induction false} RecordIsWindow(p: Policy, run: Run<Timed<Event>>, ip: string)
    requires p.Valid() && Unpunished(p, run, ip, false)
    ensures Clock(run) >= 0 && TracksWindow(p, After(p, run, false), ip, Offenses(p, run, ip), Clock(run))
  {
    if run.Then? {
      RecordIsWindow(p, run.before, ip);
      if run.last.event == Offense(ip) && Penalized(p, ip) {
        TracksWindowStep(p, After(p, run.before, false), ip, Offenses(p, run.before, ip), Clock(run.before), run.last.at);
      }
    }
  }

  lemma {:induction false} NeverBannedEitherWay(p: Policy, run: Run<Timed<Event>>, ip: string)
    requires p.Valid() && Timely(run) && NothingMissed(p, run, ip) && NeverBanned(p, run, ip, true)
    ensures NeverBanned(p, run, ip, false)
  {
    SweepingUnobservable(p, run, ip, Clock(run));
    if run.Then? {
      NeverBannedEitherWay(p, run.before, ip);
    }
  }

  /**
   * The offenses that count against an address: all since its last success, where
   * a success during a ban is not one.
   */
  ghost function Counting(p: Policy, run: Run<Timed<Event>>, ip: string, sweeping: bool): Times {
    match run
    case Start => Start
    case Then(before, Timed(Offense(who), at)) =>
      if who == ip then Then(Counting(p, before, ip, sweeping), at) else Counting(p, before, ip, sweeping)
    case Then(before, Timed(Success(who), at)) =>
      if who == ip && !IsBanned(After(p, before, sweeping), ip, at) then Start else Counting(p, before, ip, sweeping)
    case Then(before, _) => Counting(p, before, ip, sweeping)
  }

  ghost predicate Tallies(p: Policy, records: Records, ip: string, ts: Times) {
    && (ip in records <==> ts.Then?)
    && (ip in records ==>
          && Current(ts, p.windowMs) == Window(records[ip].windowStart, records[ip].count)
          && records[ip].lastSeen == ts.last)
  }

  lemma TalliesStep(p: Policy, records: Records, ip: string, ts: Times, at: int)
    requires p.Valid() && ip != "" && !p.isTrusted(ip) && Tallies(p, records, ip, ts) && 0 <= at
    ensures var records' := Offend(p, records, ip, at);
      && Tallies(p, records', ip, Then(ts, at))
      && (IsBanned(records', ip, at) <==>
            IsBanned(records, ip, at) || Current(Then(ts, at), p.windowMs).count >= p.threshold)
  {
  }

  /** Whatever happens, a kept record is the fixed window over the offenses that count. */
  lemma {:induction false} RecordTallies(p: Policy, run: Run<Timed<Event>>, ip: string)
    requires p.Valid() && Timely(run) && ip != "" && !p.isTrusted(ip)
    ensures 0 <= Clock(run) && Tallies(p, After(p, run, false), ip, Counting(p, run, ip, false))
  {
    if run.Then? {
      RecordTallies(p, run.before, ip);
      if run.last.event == Offense(ip) {
        TalliesStep(p, After(p, run.before, false), ip, Counting(p, run.before, ip, false), run.last.at);
      }
    }
  }

  /** Without a missed record the same offenses count in both guards. */
  lemma {:induction false} SameCounting(p: Policy, run: Run<Timed<Event>>, ip: string)
    requires p.Valid() && Timely(run) && NothingMissed(p, run, ip)
    ensures Counting(p, run, ip, true) == Counting(p, run, ip, false)
  {
    if run.Then? {
      SameCounting(p, run.before, ip);
      SweepingUnobservable(p, run.before, ip, run.last.at);
    }
  }

  /**
   * The exact rule, on every run: after an offense an address is banned if and
   * only if it already was, or the offense is at least the `threshold`-th of the
   * fixed window over the offenses since its last success. A guard that sweeps
   * does the same as long as it misses no record.
   */
  lemma BannedIffWindowFull(p: Policy, run: Run<Timed<Event>>, at: int, ip: string, sweeping: bool)
    requires p.Valid() && Timely(run) && Clock(run) <= at && ip != "" && !p.isTrusted(ip)
    requires sweeping ==> NothingMissed(p, Then(run, Timed(Offense(ip), at)), ip)
    ensures var next := Then(run, Timed(Offense(ip), at));
      IsBanned(After(p, next, sweeping), ip, at) <==>
      IsBanned(After(p, run, sweeping), ip, at)
      || Current(Counting(p, next, ip, sweeping), p.windowMs).count >= p.threshold
  {
    var next := Then(run, Timed(Offense(ip), at));
    if sweeping {
      SweepingUnobservable(p, run, ip, at);
      SweepingUnobservable(p, next, ip, at);
      SameCounting(p, next, ip);
    }
    RecordTallies(p, run, ip);
    TalliesStep(p, After(p, run, false), ip, Counting(p, run, ip, false), at);
  }

  lemma {:induction false} ClockNotNegative(run: Run<Timed<Event>>)
    requires Timely(run)
    ensures 0 <= Clock(run)
  {
    if run.Then? {
      ClockNotNegative(run.before);
    }
  }

  /** A ban that an offense sets lasts exactly `banMs` from it. */
  lemma BanLasts(p: Policy, run: Run<Timed<Event>>, at: int, ip: string, sweeping: bool, later: int)
    requires Timely(run) && Clock(run) <= at
    requires var next := Then(run, Timed(Offense(ip), at));
      !IsBanned(After(p, run, sweeping), ip, at) && IsBanned(After(p, next, sweeping), ip, at)
    ensures IsBanned(After(p, Then(run, Timed(Offense(ip), at)), sweeping), ip, later) <==> later < at + p.banMs
  {
    var next := Then(run, Timed(Offense(ip), at));
    var records := After(p, run, sweeping);
    assert After(p, next, sweeping) == Offend(p, records, ip, at);
    ClockNotNegative(run);
  }

  /** A success clears the tally: the next offense is the first of a new window. */
  lemma SuccessClearsTally(p: Policy, run: Run<Timed<Event>>, at: int, later: int, ip: string, sweeping: bool)
    requires p.Valid() && Timely(run) && Clock(run) <= at <= later && ip != "" && !p.isTrusted(ip)
    requires !IsBanned(After(p, run, sweeping), ip, at)
    ensures var cleared := Then(run, Timed(Success(ip), at));
      && ip !in After(p, cleared, sweeping)
      && (IsBanned(After(p, Then(cleared, Timed(Offense(ip), later)), sweeping), ip, later) <==> p.threshold == 1)
  {
    ClockNotNegative(run);
  }

  /** After a sweep only records of banned addresses and of recent offenders are left. */
  lemma SweepLeavesOnlyLive(p: Policy, run: Run<Timed<Event>>, at: int, ip: string)
    ensures var records := After(p, Then(run, Timed(Sweep, at)), true);
      ip in records <==>
        && ip in After(p, run, true)
        && (After(p, run, true)[ip].bannedUntil > at || After(p, run, true)[ip].lastSeen > at - p.windowMs)
  {
  }

  /**
   * An address that was never forgiven and never banned has at most
   * `2 * threshold - 3` offenses in any closed span of `windowMs`, and none at
   * all when the threshold is 1.
   */
  lemma OffensesForceABan(p: Policy, run: Run<Timed<Event>>, ip: string, x: int, sweeping: bool)
    requires p.Valid() && Unpunished(p, run, ip, sweeping) && (sweeping ==> NothingMissed(p, run, ip))
    ensures OffensesWithin(p, run, ip, x) <= Max(0, 2 * p.threshold - 3)
  {
    if sweeping {
      NeverBannedEitherWay(p, run, ip);
    }
    RecordIsWindow(p, run, ip);
    FixedWindowBound(Offenses(p, run, ip), p.windowMs, p.threshold - 1, x);
  }

  /** One offense at 0, the rest of its window at the window's end, and the next window just after. */
  ghost function WorstCase(p: Policy, ip: string): Run<Timed<Event>>
    requires p.threshold >= 2
  {
    var w := p.windowMs;
    Filled(Filled(Start, ip, 0, w, p.threshold), ip, w + 1, w + 1, p.threshold)
  }

  /** For every threshold from 2 on the bound of `OffensesForceABan` is met by a run without a ban. */
  lemma OffensesBoundReached(p: Policy, ip: string)
    requires p.Valid() && p.threshold >= 2 && Penalized(p, ip)
    ensures Unpunished(p, WorstCase(p, ip), ip, false)
    ensures OffensesWithin(p, WorstCase(p, ip), ip, p.windowMs) == 2 * p.threshold - 3
  {
    var w := p.windowMs;
    FilledTallied(p, Start, ip, 0, w, false, w);
    FilledTallied(p, Filled(Start, ip, 0, w, p.threshold), ip, w + 1, w + 1, false, w);
  }

  /**
   * What a sliding window would promise: `threshold` offenses within `windowMs`
   * never go unpunished.
   */
  ghost predicate ActsAsSlidingWindow(p: Policy, ip: string) {
    forall run: Run<Timed<Event>>, x: int, sweeping: bool
      | Unpunished(p, run, ip, sweeping) && (sweeping ==> NothingMissed(p, run, ip)) ::
      OffensesWithin(p, run, ip, x) < p.threshold
  }

  /**
   * The window is fixed and not sliding. Whether that can be noticed depends on
   * the policy alone: the guard acts as with a sliding window on all runs if
   * and only if the threshold is at most 2 (or the address is not penalized).
   */
  lemma SlidingWindowIff(p: Policy, ip: string)
    requires p.Valid()
    ensures ActsAsSlidingWindow(p, ip) <==> p.threshold <= 2 || !Penalized(p, ip)
  {
    if p.threshold >= 3 && Penalized(p, ip) {
      OffensesBoundReached(p, ip);
    } else {
      forall run: Run<Timed<Event>>, x: int, sweeping: bool
        | Unpunished(p, run, ip, sweeping) && (sweeping ==> NothingMissed(p, run, ip))
        ensures OffensesWithin(p, run, ip, x) < p.threshold
      {
        OffensesForceABan(p, run, ip, x, sweeping);
        if !Penalized(p, ip) {
          NotRecorded(p, run, ip, sweeping);
        }
      }
    }
  }
}
