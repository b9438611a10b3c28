/**
 * Counting instants in closed time windows, and the fixed-window counter that
 * both the per-IP rate limiter and the abuse guard use: a window opens at the
 * first instant, and the first instant more than `width` later opens the next.
 */
module Windows {
  import opened Common

  /** Instants in the order they happened. */
  type Times = Run<int>

  /** The last instant, if any, is not after `t`. */
  ghost predicate NoneAfter(ts: Times, t: int) {
    ts.Then? ==> ts.last <= t
  }

  ghost predicate Sorted(ts: Times) {
    ts.Then? ==> Sorted(ts.before) && NoneAfter(ts.before, ts.last)
  }

  /** How many of the instants lie in the closed interval from `lo` to `hi`. */
  ghost function Count(ts: Times, lo: int, hi: int): nat {
    match ts
    case Start => 0
    case Then(before, t) => Count(before, lo, hi) + (if lo <= t <= hi then 1 else 0)
  }

  /** A wider interval counts at least as much. */
  lemma {:induction false} CountWiden(ts: Times, lo: int, hi: int, lo': int, hi': int)
    requires lo' <= lo && hi <= hi'
    ensures Count(ts, lo, hi) <= Count(ts, lo', hi')
  {
    if ts.Then? {
      CountWiden(ts.before, lo, hi, lo', hi');
    }
  }

  /** Nothing is counted after the last instant. */
  lemma {:induction false} CountNone(ts: Times, lo: int, hi: int)
    requires Sorted(ts) && NoneAfter(ts, lo - 1)
    ensures Count(ts, lo, hi) == 0
  {
    if ts.Then? {
      CountNone(ts.before, lo, hi);
    }
  }

  /** Cutting the interval off after the last instant changes nothing. */
  lemma {:induction false} CountClip(ts: Times, lo: int, hi: int, last: int)
    requires Sorted(ts) && NoneAfter(ts, last) && last <= hi
    ensures Count(ts, lo, hi) == Count(ts, lo, last)
  {
    if ts.Then? {
      CountClip(ts.before, lo, hi, last);
    }
  }

  // ----- the fixed-window counter -----

  datatype Window = Window(start: int, count: nat)

  /** The window in force after the instants, and how many of them it holds. */
  ghost function Current(ts: Times, width: int): Window
    requires ts.Then?
  {
    if ts.before.Start? || ts.last > Current(ts.before, width).start + width then Window(ts.last, 1)
    else Window(Current(ts.before, width).start, Current(ts.before, width).count + 1)
  }

  /** No window along the way ever held more than `cap` instants. */
  ghost predicate Capped(ts: Times, width: int, cap: nat) {
    ts.Then? ==> Current(ts, width).count <= cap && Capped(ts.before, width, cap)
  }

  /**
   * What the current window says about the past: it starts at a counted
   * instant, holds everything since, and less than `cap` instants fall in the
   * `width` before it.
   */
  lemma {:induction false} CurrentCounts(ts: Times, width: int, cap: nat, hi: int)
    requires ts.Then? && Sorted(ts) && Capped(ts, width, cap) && width >= 0
    ensures var w := Current(ts, width);
      && 1 <= w.count
      && w.start <= ts.last <= w.start + width
      && Count(ts, w.start, hi) <= w.count
      && Count(ts, w.start + 1, hi) <= w.count - 1
      && Count(ts, w.start - width, hi) <= cap - 1 + w.count
  {
    var t := ts.last;
    if ts.before.Then? {
      CurrentCounts(ts.before, width, cap, hi);
      var w := Current(ts.before, width);
      if t > w.start + width {
        CountNone(ts.before, t, hi);
        CountNone(ts.before, t + 1, hi);
        CountWiden(ts.before, t - width, hi, w.start + 1, hi);
      }
    }
  }

  /**
   * The exact price of a fixed window: if no window holds more than `cap`
   * instants, then no closed interval of the window's width holds more than
   * `2 * cap - 1` of them (and none when `cap` is 0).
   */
  lemma {:induction false} FixedWindowBound(ts: Times, width: int, cap: nat, x: int)
    requires Sorted(ts) && Capped(ts, width, cap) && width >= 0
    ensures Count(ts, x, x + width) <= Max(0, 2 * cap - 1)
  {
    if ts.Then? {
      FixedWindowBound(ts.before, width, cap, x);
      CurrentCounts(ts, width, cap, x + width);
      if x <= ts.last <= x + width {
        CountWiden(ts, x, x + width, Current(ts, width).start - width, x + width);
      }
    }
  }
}
