/**
 * Text metrics of the signage display: the ASCII / non-ASCII character
 * counts of a string, the estimated starting offset of a scrolling text, its
 * scrolling speed, and the classification of a text item by its duration.
 */
module Text {

  /** Counts of the characters of a string: ASCII code points and all others. */
  datatype Counts = Counts(ascii: nat, nonAscii: nat)

  /** Component-wise sum of two counts. */
  function Add(x: Counts, y: Counts): Counts
  {
    Counts(x.ascii + y.ascii, x.nonAscii + y.nonAscii)
  }

  /** A character is ASCII when its code point is below 128. */
  predicate IsAscii(c: char)
  {
    c as int < 128
  }

  /** One step of the fold: bump the counter the character belongs to. */
  function Tally(acc: Counts, c: char): Counts
  {
    if IsAscii(c) then acc.(ascii := acc.ascii + 1) else acc.(nonAscii := acc.nonAscii + 1)
  }

  /** Left fold of Tally over the characters of s, starting from acc. */
  function FoldTally(acc: Counts, s: string): (r: Counts)
    ensures r.ascii + r.nonAscii == acc.ascii + acc.nonAscii + |s|
    ensures acc.ascii <= r.ascii && acc.nonAscii <= r.nonAscii
    decreases |s|
  {
    if s == [] then acc else FoldTally(Tally(acc, s[0]), s[1..])
  }

  /** count_ascii: the fold started from (0, 0). */
  function CountAscii(s: string): (r: Counts)
    ensures r.ascii + r.nonAscii == |s|
  {
    FoldTally(Counts(0, 0), s)
  }

  /** Positions of the ASCII characters of s: the reference definition of the first count. */
  ghost function AsciiPositions(s: string): set<int>
  {
    set i | 0 <= i < |s| && IsAscii(s[i])
  }

  /** Positions of the other characters of s. */
  ghost function NonAsciiPositions(s: string): set<int>
  {
    set i | 0 <= i < |s| && !IsAscii(s[i])
  }

  /** The fold's accumulator only shifts the result. */
  lemma {:induction false} FoldTallyShift(acc: Counts, s: string)
    ensures FoldTally(acc, s) == Add(acc, CountAscii(s))
    decreases |s|
  {
    if s != [] {
      var t := Tally(Counts(0, 0), s[0]);
      FoldTallyShift(Tally(acc, s[0]), s[1..]);
      FoldTallyShift(t, s[1..]);
      assert Tally(acc, s[0]) == Add(acc, t);
    }
  }

  /** The empty string has no characters of either kind. */
  lemma CountAsciiEmpty()
    ensures CountAscii("") == Counts(0, 0)
  {
  }

  /** The counts of a concatenation are the component-wise sums of the counts. */
  lemma {:induction false} CountAsciiAppend(s: string, t: string)
    ensures CountAscii(s + t) == Add(CountAscii(s), CountAscii(t))
    decreases |s|
  {
    if s == [] {
      assert s + t == t;
    } else {
      var c := Tally(Counts(0, 0), s[0]);
      assert (s + t)[0] == s[0] && (s + t)[1..] == s[1..] + t;
      calc {
        CountAscii(s + t);
        FoldTally(c, s[1..] + t);
        { FoldTallyShift(c, s[1..] + t); }
        Add(c, CountAscii(s[1..] + t));
        { CountAsciiAppend(s[1..], t); }
        Add(c, Add(CountAscii(s[1..]), CountAscii(t)));
        Add(Add(c, CountAscii(s[1..])), CountAscii(t));
        { FoldTallyShift(c, s[1..]); }
        Add(CountAscii(s), CountAscii(t));
      }
    }
  }

  /** Appending one character tallies it onto the counts. */
  lemma CountAsciiSnoc(s: string, c: char)
    ensures CountAscii(s + [c]) == Tally(CountAscii(s), c)
  {
    CountAsciiAppend(s, [c]);
    assert CountAscii([c]) == Tally(Counts(0, 0), c);
  }

  /** Appending one character adds its position to the set of its kind only. */
  lemma PositionsSnoc(s: string, c: char)
    ensures AsciiPositions(s + [c]) == AsciiPositions(s) + (if IsAscii(c) then {|s|} else {})
    ensures NonAsciiPositions(s + [c]) == NonAsciiPositions(s) + (if IsAscii(c) then {} else {|s|})
  {
    var t := s + [c];
    assert forall i :: 0 <= i < |s| ==> t[i] == s[i];
    assert t[|s|] == c;
  }

  /** The first count is the number of characters below code point 128, the second the rest. */
  lemma {:induction false} CountAsciiMatchesPositions(s: string)
    ensures CountAscii(s).ascii == |AsciiPositions(s)|
    ensures CountAscii(s).nonAscii == |NonAsciiPositions(s)|
    decreases |s|
  {
    if s == [] {
      assert AsciiPositions(s) == {} && NonAsciiPositions(s) == {};
    } else {
      var init, c := s[..|s| - 1], s[|s| - 1];
      assert s == init + [c];
      CountAsciiMatchesPositions(init);
      CountAsciiSnoc(init, c);
      PositionsSnoc(init, c);
      assert |init| !in AsciiPositions(init) && |init| !in NonAsciiPositions(init);
    }
  }

  /** calc_text_offset in terms of the two counts. */
  function OffsetOf(c: Counts, tsize: real, wwidth: real): real
  {
    ((c.nonAscii as real * tsize) + (c.ascii as real * tsize * 0.48) + wwidth) / 2.0 + 5.0
  }

  /** calc_text_offset: half the estimated text width plus half the window width, plus a 5 pixel margin. */
  function TextOffset(s: string, tsize: real, wwidth: real): (r: real)
    ensures tsize >= 0.0 ==> r >= wwidth / 2.0 + 5.0
  {
    var c := CountAscii(s);
    assert tsize >= 0.0 ==> c.nonAscii as real * tsize >= 0.0 && c.ascii as real * tsize * 0.48 >= 0.0;
    OffsetOf(c, tsize, wwidth)
  }

  /** For a non-negative text size the offset is non-decreasing in both counts. */
  lemma OffsetMonotone(c: Counts, d: Counts, tsize: real, wwidth: real)
    requires tsize >= 0.0
    requires c.ascii <= d.ascii && c.nonAscii <= d.nonAscii
    ensures OffsetOf(c, tsize, wwidth) <= OffsetOf(d, tsize, wwidth)
  {
    assert c.nonAscii as real * tsize <= d.nonAscii as real * tsize;
    assert c.ascii as real * tsize <= d.ascii as real * tsize;
  }

  /** Appending text never moves the starting offset closer to the screen. */
  lemma TextOffsetAppend(s: string, t: string, tsize: real, wwidth: real)
    requires tsize >= 0.0
    ensures TextOffset(s, tsize, wwidth) <= TextOffset(s + t, tsize, wwidth)
  {
    CountAsciiAppend(s, t);
    OffsetMonotone(CountAscii(s), CountAscii(s + t), tsize, wwidth);
  }

  /** calc_speed: the speed that covers the text width plus the window width in d seconds. */
  function Speed(w: real, d: real, wwidth: real): (r: real)
    requires d != 0.0
    ensures r * d == w + wwidth
  {
    (w + wwidth) / d
  }

  /** How a text item is shown, by its duration. */
  datatype ScrollKind = Static | Looping | OneShot

  /** Duration 0 is static text, 1000 or more loops, anything else scrolls once. */
  function Classify(duration: real): (k: ScrollKind)
    ensures k == Static <==> duration == 0.0
    ensures k == Looping <==> duration != 0.0 && duration >= 1000.0
    ensures k == OneShot ==> duration != 0.0
  {
    if duration == 0.0 then Static
    else if duration >= 1000.0 then Looping
    else OneShot
  }
}
