/**
 * The bingo draw: a shuffled sequence of the balls 1..75 and a cursor into
 * it. Each draw returns the ball under the cursor and advances the cursor;
 * once every ball has been drawn the draw is exhausted.
 */
module BingoDraw {
  import opened Wrappers

  /** A sequence holding i + 1 at every position i < 75 holds every ball 1..75. */
  lemma CountingCovers(r: seq<int>)
    requires |r| == 75 && forall i :: 0 <= i < 75 ==> r[i] == i + 1
    ensures forall v :: 1 <= v <= 75 ==> v in r
  {
    forall v | 1 <= v <= 75 ensures v in r {
      assert r[v - 1] == v;
    }
  }

  /** The balls 1..75 in order, before the shuffle. */
  function Balls(): (r: seq<int>)
    ensures |r| == 75
    ensures forall v :: v in r <==> 1 <= v <= 75
    ensures forall i, j :: 0 <= i < j < |r| ==> r[i] < r[j]
  {
    var r := seq(75, i => i + 1);
    CountingCovers(r);
    r
  }

  /** s is a rearrangement of the balls 1..75. */
  ghost predicate IsShuffle(s: seq<int>)
  {
    multiset(s) == multiset(Balls())
  }

  /** No value occurs twice in s. */
  ghost predicate Distinct(s: seq<int>)
  {
    forall i, j :: 0 <= i < j < |s| ==> s[i] != s[j]
  }

  /** In a sequence without repetitions every value occurs at most once. */
  lemma {:induction false} DistinctCountsAtMostOne(s: seq<int>, x: int)
    requires Distinct(s)
    ensures multiset(s)[x] <= 1
    decreases |s|
  {
    if s != [] {
      var init := s[..|s| - 1];
      assert s == init + [s[|s| - 1]];
      assert Distinct(init);
      DistinctCountsAtMostOne(init, x);
      if x == s[|s| - 1] {
        assert x !in init;
      }
    }
  }

  /** A value at two positions is counted at least twice. */
  lemma RepeatCountsTwice(s: seq<int>, i: int, j: int)
    requires 0 <= i < j < |s| && s[i] == s[j]
    ensures multiset(s)[s[i]] >= 2
  {
    assert s == s[..j] + s[j..];
    assert s[i] in s[..j];
    assert s[j..][0] == s[j];
  }

  /** A shuffle has 75 elements. */
  lemma ShuffleLength(s: seq<int>)
    requires IsShuffle(s)
    ensures |s| == 75
  {
    assert |multiset(s)| == |multiset(Balls())|;
  }

  /** Every element of a shuffle is a ball, so no draw can be mistaken for an exhausted draw. */
  lemma ShuffleInRange(s: seq<int>)
    requires IsShuffle(s)
    ensures forall i :: 0 <= i < |s| ==> 1 <= s[i] <= 75
  {
    forall i | 0 <= i < |s| ensures 1 <= s[i] <= 75 {
      assert s[i] in multiset(s);
      assert s[i] in multiset(Balls());
      var k :| 0 <= k < 75 && Balls()[k] == s[i];
    }
  }

  /** A shuffle never repeats a ball. */
  lemma ShuffleDistinct(s: seq<int>)
    requires IsShuffle(s)
    ensures Distinct(s)
  {
    forall i, j | 0 <= i < j < |s| ensures s[i] != s[j] {
      if s[i] == s[j] {
        RepeatCountsTwice(s, i, j);
        DistinctCountsAtMostOne(Balls(), s[i]);
        assert false;
      }
    }
  }

  /** Every ball 1..75 occurs in a shuffle. */
  lemma ShuffleCovers(s: seq<int>)
    requires IsShuffle(s)
    ensures forall v :: 1 <= v <= 75 ==> v in s
  {
    forall v | 1 <= v <= 75 ensures v in s {
      assert Balls()[v - 1] == v;
      assert v in multiset(Balls());
      assert v in multiset(s);
    }
  }

  /** The draws a shuffle yields: the first k are pairwise distinct balls, and all 75 are every ball once. */
  lemma DrawsAreDistinctAndExhaustive(s: seq<int>, k: nat)
    requires IsShuffle(s) && k <= |s|
    ensures |s| == 75
    ensures Distinct(s[..k]) && forall i :: 0 <= i < k ==> 1 <= s[..k][i] <= 75
    ensures k == 75 ==> forall v :: 1 <= v <= 75 ==> v in s[..k]
  {
    ShuffleLength(s);
    ShuffleDistinct(s);
    ShuffleInRange(s);
    ShuffleCovers(s);
    assert s[..75] == s;
  }

  /** The ball under the cursor, or None once the cursor has passed the last ball. */
  function Peek(numbers: seq<int>, index: nat): (r: Option<int>)
    ensures r.Some? <==> index < |numbers|
    ensures r.Some? ==> r.value == numbers[index]
  {
    if index < |numbers| then Some(numbers[index]) else None
  }

  class BingoState {
    var numbers: seq<int>
    var index: nat

    ghost predicate Valid()
      reads this
    {
      IsShuffle(numbers) && index <= |numbers|
    }

    /** The balls drawn so far, in draw order. */
    ghost function Drawn(): seq<int>
      reads this
      requires Valid()
    {
      numbers[..index]
    }

    /** BingoState::new, with the shuffle of the balls 1..75 supplied by the caller. */
    constructor (shuffled: seq<int>)
      requires IsShuffle(shuffled)
      ensures Valid() && numbers == shuffled && index == 0 && Drawn() == []
    {
      numbers := shuffled;
      index := 0;
    }

    /** The ball the next draw will return, without drawing it. */
    function Current(): (r: Option<int>)
      reads this
      requires Valid()
      ensures r.None? <==> index == |numbers|
      ensures r.Some? ==> r.value == numbers[index] && 1 <= r.value <= 75 && r.value !in Drawn()
    {
      ShuffleInRange(numbers);
      ShuffleDistinct(numbers);
      Peek(numbers, index)
    }

    /** Draw the ball under the cursor and advance the cursor, or report exhaustion. */
    method Next() returns (r: Option<int>)
      requires Valid()
      modifies this
      ensures Valid() && numbers == old(numbers)
      ensures r == old(Current())
      ensures old(index) < |numbers| ==> r == Some(numbers[old(index)]) && index == old(index) + 1
      ensures old(index) == |numbers| ==> r == None && index == old(index)
      ensures r.Some? ==> 1 <= r.value <= 75 && r.value !in old(Drawn()) && Drawn() == old(Drawn()) + [r.value]
    {
      if index < |numbers| {
        var num := numbers[index];
        ghost var before := Drawn();
        assert Current() == Some(num);
        index := index + 1;
        assert numbers[..index] == before + [num];
        r := Some(num);
      } else {
        r := None;
      }
    }
  }
}
