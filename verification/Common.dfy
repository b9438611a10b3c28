/** Types shared by the models of the separate components. */
module Common {

  datatype Option<+T> = None | Some(value: T)

  /** What happened so far, oldest first: nothing yet, or one more event. */
  datatype Run<+E> = Start | Then(before: Run<E>, last: E)

  /** An event and when it happened, in milliseconds. */
  datatype Timed<+E> = Timed(event: E, at: int)

  /** The time of the run's last event; the clock starts at 0. */
  ghost function Clock<E>(run: Run<Timed<E>>): int {
    if run.Then? then run.last.at else 0
  }

  /** The clock never runs backwards. */
  ghost predicate Timely<E>(run: Run<Timed<E>>) {
    run.Then? ==> Timely(run.before) && Clock(run.before) <= run.last.at
  }

  /** `run` is `from` and whatever happened after it. */
  ghost predicate Continues<E(!new)>(run: Run<E>, from: Run<E>) {
    run == from || (run.Then? && Continues(run.before, from))
  }

  /** The larger of two integers, as `Math.max` on whole numbers. */
  function Max(a: int, b: int): int {
    if a >= b then a else b
  }

  /** The smaller of two integers. */
  function Min(a: int, b: int): int {
    if a <= b then a else b
  }

  /** `a` is `b` with some elements left out; the order is kept. */
  ghost predicate Subsequence<T(!new)>(a: seq<T>, b: seq<T>) {
    if a == [] then true
    else if b == [] then false
    else
      || (a[|a| - 1] == b[|b| - 1] && Subsequence(a[..|a| - 1], b[..|b| - 1]))
      || Subsequence(a, b[..|b| - 1])
  }

  /** Elements appended on the right of the longer sequence do not matter. */
  lemma {:induction false} SubsequenceGrow<T(!new)>(a: seq<T>, b: seq<T>, c: seq<T>)
    requires Subsequence(a, b)
    ensures Subsequence(a, b + c)
  {
    if c == [] {
      assert b + c == b;
    } else {
      SubsequenceGrow(a, b, c[..|c| - 1]);
      assert (b + c)[..|b + c| - 1] == b + c[..|c| - 1];
    }
  }

  /** The same elements may be appended on both sides. */
  lemma {:induction false} SubsequenceAppend<T(!new)>(a: seq<T>, b: seq<T>, c: seq<T>)
    requires Subsequence(a, b)
    ensures Subsequence(a + c, b + c)
  {
    if c == [] {
      assert a + c == a && b + c == b;
    } else {
      SubsequenceAppend(a, b, c[..|c| - 1]);
      assert (a + c)[..|a + c| - 1] == a + c[..|c| - 1];
      assert (b + c)[..|b + c| - 1] == b + c[..|c| - 1];
    }
  }

  /** A prefix of a subsequence is a subsequence. */
  lemma {:induction false} SubsequencePrefix<T(!new)>(a: seq<T>, b: seq<T>, n: nat)
    requires n <= |a| && Subsequence(a, b)
    ensures Subsequence(a[..n], b)
    decreases |b|
  {
    if n == |a| {
      assert a[..n] == a;
    } else if n > 0 {
      var b' := b[..|b| - 1];
      if Subsequence(a, b') {
        SubsequencePrefix(a, b', n);
      } else {
        var a' := a[..|a| - 1];
        SubsequencePrefix(a', b', n);
        assert a'[..n] == a[..n];
      }
      SubsequenceGrow(a[..n], b', [b[|b| - 1]]);
      assert b' + [b[|b| - 1]] == b;
    }
  }
}

/** The statuses a call record can have. */
module CallStatuses {
  datatype CallStatus = Ringing | Answered | Ended | Missed | Failed | Voicemail | Unreachable
}
