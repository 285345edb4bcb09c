/** Properties of the countdown's dwell tables and of the number it displays. */
module CountdownProperties {
  import opened Countdown

  /** Every entry of a dwell table is positive. */
  ghost predicate Positive(times: seq<real>)
  {
    forall i :: 0 <= i < |times| ==> times[i] > 0.0
  }

  /** The Accelerated table runs from 1.8 s down to 1.3 s, strictly decreasing. */
  lemma AcceleratedStrictlyDecreasing()
    ensures AcceleratedTimes()[0] == 1.8 && AcceleratedTimes()[9] == 1.3
    ensures forall i, j :: 0 <= i < j < 10 ==> AcceleratedTimes()[i] > AcceleratedTimes()[j]
  {
    var a := AcceleratedTimes();
    forall i, j | 0 <= i < j < 10 ensures a[i] > a[j] {
      assert (i as real) / 9.0 < (j as real) / 9.0;
    }
  }

  /** The Decelerated table runs from 1.3 s up to 1.8 s, strictly increasing. */
  lemma DeceleratedStrictlyIncreasing()
    ensures DeceleratedTimes()[0] == 1.3 && DeceleratedTimes()[9] == 1.8
    ensures forall i, j :: 0 <= i < j < 10 ==> DeceleratedTimes()[i] < DeceleratedTimes()[j]
  {
    var d := DeceleratedTimes();
    forall i, j | 0 <= i < j < 10 ensures d[i] < d[j] {
      assert (i as real) / 9.0 < (j as real) / 9.0;
    }
  }

  /** The Decelerated table is the Accelerated table reversed. */
  lemma DeceleratedIsReversed()
    ensures forall i :: 0 <= i < 10 ==> DeceleratedTimes()[i] == AcceleratedTimes()[9 - i]
  {
  }

  /** Both tables have positive entries. */
  lemma TablesPositive()
    ensures Positive(AcceleratedTimes()) && Positive(DeceleratedTimes())
  {
    AcceleratedStrictlyDecreasing();
    DeceleratedStrictlyIncreasing();
  }

  /** The closed form below for prefix m, plus entry m, is the closed form for prefix m + 1. */
  lemma InterpolationStep(first: real, d: real, m: real)
    ensures m * first + d * (m * (m - 1.0) / 18.0) + (first + d * (m / 9.0))
         == (m + 1.0) * first + d * ((m + 1.0) * m / 18.0)
  {
    assert m * (m - 1.0) / 18.0 + m / 9.0 == (m + 1.0) * m / 18.0;
    assert d * (m * (m - 1.0) / 18.0) + d * (m / 9.0) == d * (m * (m - 1.0) / 18.0 + m / 9.0);
    assert m * first + first == (m + 1.0) * first;
  }

  /** Closed form of the prefix sums of a linearly interpolated table. */
  lemma {:induction false} DwellPrefixSum(first: real, last: real, k: nat)
    requires k <= 10
    ensures Sum(DwellTimes(first, last)[..k])
         == (k as real) * first + (last - first) * ((k as real) * (k as real - 1.0) / 18.0)
  {
    var s := DwellTimes(first, last);
    if k > 0 {
      DwellPrefixSum(first, last, k - 1);
      assert s[..k][..k - 1] == s[..k - 1];
      var m := (k - 1) as real;
      assert Sum(s[..k]) == Sum(s[..k - 1]) + s[k - 1];
      assert s[k - 1] == first + (last - first) * (m / 9.0);
      InterpolationStep(first, last - first, m);
      assert m + 1.0 == k as real;
    }
  }

  /** In exact arithmetic each table sums to the finish threshold, 15.5 s. */
  lemma TablesSumToFinishThreshold()
    ensures Sum(AcceleratedTimes()) == FinishThreshold
    ensures Sum(DeceleratedTimes()) == FinishThreshold
  {
    DwellPrefixSum(1.8, 1.3, 10);
    DwellPrefixSum(1.3, 1.8, 10);
    assert AcceleratedTimes()[..10] == AcceleratedTimes();
    assert DeceleratedTimes()[..10] == DeceleratedTimes();
  }

  /** With positive entries the prefix sums strictly increase. */
  lemma {:induction false} PrefixSumsIncrease(times: seq<real>, i: nat, j: nat)
    requires Positive(times) && i < j <= |times|
    ensures Sum(times[..i]) < Sum(times[..j])
    decreases j - i
  {
    assert times[..j][..j - 1] == times[..j - 1];
    if i < j - 1 {
      PrefixSumsIncrease(times, i, j - 1);
    }
  }

  /** Extending a prefix by one entry adds that entry to its sum. */
  lemma SumSnoc(times: seq<real>, k: nat)
    requires k < |times|
    ensures Sum(times[..k + 1]) == Sum(times[..k]) + times[k]
  {
    assert times[..k + 1][..k] == times[..k];
  }

  /** Passed never decreases as time goes on. */
  lemma {:induction false} PassedMonotone(times: seq<real>, t1: real, t2: real, k: nat, acc: real)
    requires k <= |times| && t1 <= t2
    ensures Passed(times, t1, k, acc) <= Passed(times, t2, k, acc)
    decreases |times| - k
  {
    if k < |times| && !(t2 < acc + times[k]) {
      PassedMonotone(times, t1, t2, k + 1, acc + times[k]);
    }
  }

  /** When acc is the sum of the entries before k, the interval Passed stops at, if any, is still running at time t. */
  lemma {:induction false} PassedStillRunning(times: seq<real>, t: real, k: nat, acc: real)
    requires k <= |times| && acc == Sum(times[..k])
    ensures Passed(times, t, k, acc) < |times| ==> t < Sum(times[..Passed(times, t, k, acc) + 1])
    decreases |times| - k
  {
    if k < |times| {
      SumSnoc(times, k);
      if !(t < acc + times[k]) {
        PassedStillRunning(times, t, k + 1, acc + times[k]);
      }
    }
  }

  /** When acc is the sum of the entries before k, the intervals Passed skips over have all run by time t. */
  lemma {:induction false} PassedPrefixElapsed(times: seq<real>, t: real, k: nat, acc: real)
    requires k <= |times| && acc == Sum(times[..k]) && acc <= t
    ensures Sum(times[..Passed(times, t, k, acc)]) <= t
    decreases |times| - k
  {
    if k < |times| {
      SumSnoc(times, k);
      if !(t < acc + times[k]) {
        PassedPrefixElapsed(times, t, k + 1, acc + times[k]);
      }
    }
  }

  /**
   * For a table of positive dwell times and a time t >= 0, Passed counts the
   * leading intervals that have fully run: exactly the prefix lengths j >= 1
   * whose sum is at most t.
   */
  lemma PassedCountsRunIntervals(times: seq<real>, t: real, j: nat)
    requires Positive(times) && t >= 0.0 && 1 <= j <= |times|
    ensures Sum(times[..j]) <= t <==> j <= Passed(times, t, 0, 0.0)
  {
    var k := Passed(times, t, 0, 0.0);
    assert times[..0] == [];
    PassedPrefixElapsed(times, t, 0, 0.0);
    PassedStillRunning(times, t, 0, 0.0);
    if j <= k {
      if j < k {
        PrefixSumsIncrease(times, j, k);
      }
    } else {
      if k + 1 < j {
        PrefixSumsIncrease(times, k + 1, j);
      }
    }
  }

  /** The displayed number of a stepped countdown never goes up as time passes. */
  lemma SteppedNumberNonIncreasing(times: seq<real>, t1: real, t2: real)
    requires |times| == 10 && t1 <= t2
    ensures SteppedNumber(times, t2) <= SteppedNumber(times, t1)
  {
    PassedMonotone(times, t1, t2, 0, 0.0);
  }

  /** Once the whole table has run, the stepped countdown shows 0. */
  lemma SteppedNumberZeroAfterTable(times: seq<real>, t: real)
    requires |times| == 10 && Positive(times) && t >= Sum(times)
    ensures SteppedNumber(times, t) == 0
  {
    assert times[..10] == times;
    PrefixSumsIncrease(times, 0, 10);
    assert times[..0] == [];
    PassedCountsRunIntervals(times, t, 10);
  }

  /** An Accelerated or Decelerated countdown shows 0 by the time it finishes. */
  lemma FinishedShowsZero(mode: CountdownMode, elapsed: real, remaining: real)
    requires mode != Normal && elapsed >= FinishThreshold
    ensures DisplayedNumber(mode, elapsed, remaining) == 0
  {
    TablesSumToFinishThreshold();
    TablesPositive();
    SteppedNumberZeroAfterTable(TimesFor(mode), elapsed);
  }

  /**
   * The displayed number is never negative; a stepped mode, once time has
   * run, shows at most 10; before that, and always in Normal mode, 0 is
   * shown exactly when no time remains.
   */
  lemma DisplayedNumberRange(mode: CountdownMode, elapsed: real, remaining: real)
    ensures DisplayedNumber(mode, elapsed, remaining) >= 0
    ensures mode != Normal && elapsed > 0.0 ==> DisplayedNumber(mode, elapsed, remaining) <= 10
    ensures mode == Normal || elapsed <= 0.0 ==> (DisplayedNumber(mode, elapsed, remaining) == 0 <==> remaining <= 0.0)
  {
  }

  /**
   * A Normal countdown shows 0 exactly on the frames where its finish
   * condition holds (the engine timer has reached the full length); before
   * that it shows a positive number.
   */
  lemma NormalShowsZeroExactlyWhenFinished(elapsed: real, initialSeconds: real, timer: real)
    ensures DisplayedNumber(Normal, elapsed, initialSeconds - timer) == 0 <==> timer >= initialSeconds
    ensures timer < initialSeconds ==> DisplayedNumber(Normal, elapsed, initialSeconds - timer) >= 1
  {
  }

  /** Before any time has run a stepped countdown shows 10. */
  lemma SteppedNumberStartsAtTen(times: seq<real>, t: real)
    requires |times| == 10 && Positive(times) && 0.0 <= t < times[0]
    ensures SteppedNumber(times, t) == 10
  {
    assert times[..1][..0] == [];
    assert Sum(times[..1]) == times[0];
  }

  /** In Normal mode the displayed number never goes up as the remaining time shrinks. */
  lemma NormalNumberMonotone(r1: real, r2: real)
    requires r1 <= r2
    ensures NormalNumber(r1) <= NormalNumber(r2)
  {
  }
}
