/** Day 9: extrapolating sensor histories with a table of repeated differences. */
module Day09Oasis {
  import opened Prelude

  // ---------------------------------------------------------------- differences

  /** Differences of adjacent values (`windows(2)` mapped to `b - a`): one shorter than
      the row, and empty for a row of at most one value. */
  function Diffs(s: seq<int>): (r: seq<int>)
    ensures |r| == if |s| == 0 then 0 else |s| - 1
    ensures forall i :: 0 <= i < |r| ==> r[i] == s[i + 1] - s[i]
  {
    if |s| < 2 then [] else seq(|s| - 1, i requires 0 <= i < |s| - 1 => s[i + 1] - s[i])
  }

  /** `overlapping_chunks(row, 2)` as written: the range `0..len - 2 + 1` is computed
      on `usize`, so a row of fewer than two values underflows in a build with
      overflow checks (None); any longer row yields the differences. */
  function DiffsAsWritten(s: seq<int>): (r: Option<seq<int>>)
    ensures r.None? <==> |s| < 2
    ensures r.Some? ==> r.value == Diffs(s)
  {
    if |s| < 2 then None else Some(Diffs(s))
  }

  predicate AllZero(s: seq<int>) {
    forall i :: 0 <= i < |s| ==> s[i] == 0
  }

  // ---------------------------------------------------------------- specification

  /** The next value: last value plus the extrapolation of the differences; the table
      ends at the first all-zero row, which contributes nothing. */
  function Extrapolate(s: seq<int>): int
    requires |s| > 0
    decreases |s|
  {
    var d := Diffs(s);
    s[|s| - 1] + (if AllZero(d) then 0 else Extrapolate(d))
  }

  /** The previous value: first value minus the backward extrapolation of the
      differences. */
  function ExtrapolateBack(s: seq<int>): int
    requires |s| > 0
    decreases |s|
  {
    var d := Diffs(s);
    s[0] - (if AllZero(d) then 0 else ExtrapolateBack(d))
  }

  /** `check` as written, over `overlapping_chunks`: None where the row of differences
      reached has fewer than two values. */
  function ExtrapolateAsWritten(s: seq<int>): (r: Option<int>)
    requires |s| > 0
    ensures r.Some? ==> r.value == Extrapolate(s)
    decreases |s|
  {
    match DiffsAsWritten(s)
    case None => None
    case Some(d) =>
      if AllZero(d) then Some(s[|s| - 1])
      else match ExtrapolateAsWritten(d)
        case None => None
        case Some(e) => Some(s[|s| - 1] + e)
  }

  /** A single reading panics as written, although the difference table of one value is
      empty and the intended extrapolation is the value itself. */
  lemma {:induction false} SingleReadingAsWritten()
    ensures ExtrapolateAsWritten([7]) == None
    ensures Extrapolate([7]) == 7
  {
    assert AllZero(Diffs([7]));
  }

  /** Two readings whose difference is not zero reach a one-value row and panic too. */
  lemma {:induction false} TwoReadingsAsWritten()
    ensures ExtrapolateAsWritten([0, 5]) == None
    ensures Extrapolate([0, 5]) == 10
  {
    assert Diffs([0, 5]) == [5];
    assert [5][0] != 0;
    assert AllZero(Diffs([5]));
  }

  // ---------------------------------------------------------------- check, check_2

  /** The stored rows of the difference table: row 0 is the input, every further row is
      the differences of the one before and is not all zero, and the differences of the
      last row are all zero. */
  predicate IsHistory(numbers: seq<int>, history: seq<seq<int>>) {
    |history| > 0 && history[0] == numbers &&
    (forall i :: 0 <= i < |history| ==> |history[i]| > 0) &&
    (forall i :: 0 <= i < |history| - 1 ==> history[i + 1] == Diffs(history[i])) &&
    (forall i :: 1 <= i < |history| ==> !AllZero(history[i]))
  }

  /** The loop of `check`/`check_2`: push difference rows until one is all zero. */
  method BuildHistory(numbers: seq<int>) returns (history: seq<seq<int>>)
    requires |numbers| > 0
    ensures IsHistory(numbers, history)
    ensures AllZero(Diffs(history[|history| - 1]))
  {
    history := [numbers];
    while true
      invariant IsHistory(numbers, history)
      decreases |history[|history| - 1]|
    {
      var newNumbers := Diffs(history[|history| - 1]);
      if AllZero(newNumbers) {
        break;
      }
      history := history + [newNumbers];
    }
  }

  /** `check`: the sum of the last values of all stored rows, folded from the last row
      upwards; this is the next value of the sequence. */
  method Check(numbers: seq<int>) returns (r: int)
    requires |numbers| > 0
    ensures r == Extrapolate(numbers)
  {
    var history := BuildHistory(numbers);
    var acc := 0;
    var i := |history|;
    while i > 0
      invariant 0 <= i <= |history|
      invariant i == |history| ==> acc == 0
      invariant i < |history| ==> acc == Extrapolate(history[i])
    {
      i := i - 1;
      var row := history[i];
      acc := row[|row| - 1] + acc;
    }
    r := acc;
  }

  /** `check_2`: `first(row0) - (first(row1) - ...)`, folded from the last row upwards;
      this is the previous value of the sequence. */
  method CheckBack(numbers: seq<int>) returns (r: int)
    requires |numbers| > 0
    ensures r == ExtrapolateBack(numbers)
  {
    var history := BuildHistory(numbers);
    var acc := 0;
    var i := |history|;
    while i > 0
      invariant 0 <= i <= |history|
      invariant i == |history| ==> acc == 0
      invariant i < |history| ==> acc == ExtrapolateBack(history[i])
    {
      i := i - 1;
      var row := history[i];
      acc := row[0] - acc;
    }
    r := acc;
  }

  // ---------------------------------------------------------------- properties

  /** A constant sequence extrapolates to that constant in both directions. */
  lemma {:induction false} ConstantSequence(s: seq<int>, c: int)
    requires |s| > 0 && forall i :: 0 <= i < |s| ==> s[i] == c
    ensures Extrapolate(s) == c && ExtrapolateBack(s) == c
  {
    var d := Diffs(s);
    assert AllZero(d) by {
      forall i | 0 <= i < |d| ensures d[i] == 0 {
        assert d[i] == s[i + 1] - s[i];
      }
    }
    assert Extrapolate(s) == s[|s| - 1];
    assert ExtrapolateBack(s) == s[0];
  }

  /** A sequence with a constant step continues with the same step in both
      directions. */
  lemma {:induction false} ArithmeticSequence(s: seq<int>, step: int)
    requires |s| > 1 && forall i :: 0 <= i < |s| - 1 ==> s[i + 1] == s[i] + step
    ensures Extrapolate(s) == s[|s| - 1] + step
    ensures ExtrapolateBack(s) == s[0] - step
  {
    var d := Diffs(s);
    forall i | 0 <= i < |d| ensures d[i] == step {
      assert d[i] == s[i + 1] - s[i];
    }
    if step == 0 {
      assert AllZero(d);
      assert Extrapolate(s) == s[|s| - 1];
      assert ExtrapolateBack(s) == s[0];
    } else {
      assert d[0] != 0;
      ConstantSequence(d, step);
      assert Extrapolate(s) == s[|s| - 1] + Extrapolate(d);
      assert ExtrapolateBack(s) == s[0] - ExtrapolateBack(d);
    }
  }

  function Negate(s: seq<int>): (r: seq<int>)
    ensures |r| == |s| && forall i :: 0 <= i < |s| ==> r[i] == -s[i]
  {
    seq(|s|, i requires 0 <= i < |s| => -s[i])
  }

  function Reverse(s: seq<int>): (r: seq<int>)
    ensures |r| == |s| && forall i :: 0 <= i < |s| ==> r[i] == s[|s| - 1 - i]
  {
    seq(|s|, i requires 0 <= i < |s| => s[|s| - 1 - i])
  }

  /** Negating the readings negates the extrapolation. */
  lemma {:induction false} ExtrapolateNegate(s: seq<int>)
    requires |s| > 0
    ensures Extrapolate(Negate(s)) == -Extrapolate(s)
    decreases |s|
  {
    var d := Diffs(s);
    var ns := Negate(s);
    assert Diffs(ns) == Negate(d) by {
      forall i | 0 <= i < |d| ensures Diffs(ns)[i] == Negate(d)[i] {
        assert Diffs(ns)[i] == ns[i + 1] - ns[i];
      }
    }
    if !AllZero(d) {
      assert !AllZero(Negate(d));
      ExtrapolateNegate(d);
    }
  }

  lemma {:induction false} DiffsReverseAt(s: seq<int>, i: nat)
    requires i < |s| - 1
    ensures Diffs(Reverse(s))[i] == Negate(Reverse(Diffs(s)))[i]
  {
    var rs := Reverse(s);
    var ds := Diffs(s);
    assert Diffs(rs)[i] == rs[i + 1] - rs[i];
    assert Reverse(ds)[i] == ds[|ds| - 1 - i];
  }

  /** The differences of the reversed readings are the reversed, negated differences. */
  lemma {:induction false} DiffsReverse(s: seq<int>)
    ensures Diffs(Reverse(s)) == Negate(Reverse(Diffs(s)))
  {
    forall i | 0 <= i < |s| - 1
      ensures Diffs(Reverse(s))[i] == Negate(Reverse(Diffs(s)))[i]
    {
      DiffsReverseAt(s, i);
    }
  }

  /** Extrapolating backwards is extrapolating forwards over the reversed readings, so
      part two is part one on reversed rows. */
  lemma {:induction false} BackIsReversedForward(s: seq<int>)
    requires |s| > 0
    ensures ExtrapolateBack(s) == Extrapolate(Reverse(s))
    decreases |s|
  {
    var d := Diffs(s);
    var rs := Reverse(s);
    var nr := Negate(Reverse(d));
    DiffsReverse(s);
    assert Diffs(rs) == nr;
    assert rs[|rs| - 1] == s[0];
    AllZeroNegateReverse(d);
    if !AllZero(d) {
      BackIsReversedForward(d);
      ExtrapolateNegate(Reverse(d));
      calc {
        Extrapolate(rs);
        rs[|rs| - 1] + Extrapolate(nr);
        s[0] - Extrapolate(Reverse(d));
        s[0] - ExtrapolateBack(d);
        ExtrapolateBack(s);
      }
    } else {
      assert Extrapolate(rs) == rs[|rs| - 1];
    }
  }

  lemma {:induction false} AllZeroNegateReverse(d: seq<int>)
    ensures AllZero(Negate(Reverse(d))) <==> AllZero(d)
  {
    var nr := Negate(Reverse(d));
    if !AllZero(d) {
      var k :| 0 <= k < |d| && d[k] != 0;
      assert nr[|d| - 1 - k] == -d[k];
    }
    if !AllZero(nr) {
      var k :| 0 <= k < |nr| && nr[k] != 0;
      assert nr[k] == -d[|d| - 1 - k];
    }
  }

  // ---------------------------------------------------------------- answers

  /** A line's readings: `split(' ')`, each piece parsed as an integer; a piece that
      does not parse panics (None). */
  function ParseLine(line: string): (r: Option<seq<int>>)
    ensures r.Some? ==> |r.value| > 0
  {
    ParseInts(SplitChar(line, ' '))
  }

  /** Every row that parses is non-empty, so `check` is never handed an empty row. */
  function ParseAll(lines: seq<string>): (r: Option<seq<seq<int>>>)
    ensures r.Some? ==> |r.value| == |lines| && forall i :: 0 <= i < |lines| ==> |r.value[i]| > 0
  {
    if lines == [] then Some([])
    else match (ParseLine(lines[0]), ParseAll(lines[1..]))
      case (Some(n), Some(ns)) => Some([n] + ns)
      case _ => None
  }

  /** The `sum` of `part_one`: the next value of every history, added up. */
  function SumNext(rows: seq<seq<int>>): (r: int)
    requires forall i :: 0 <= i < |rows| ==> |rows[i]| > 0
    ensures |rows| == 1 ==> r == Extrapolate(rows[0])
  {
    if rows == [] then 0 else Extrapolate(rows[0]) + SumNext(rows[1..])
  }

  /** The `sum` of `part_two`: the previous value of every history, added up. */
  function SumPrevious(rows: seq<seq<int>>): (r: int)
    requires forall i :: 0 <= i < |rows| ==> |rows[i]| > 0
    ensures |rows| == 1 ==> r == ExtrapolateBack(rows[0])
  {
    if rows == [] then 0 else ExtrapolateBack(rows[0]) + SumPrevious(rows[1..])
  }

  /** The sums split over the histories: each history adds its own extrapolation. */
  lemma {:induction false} SumsAppend(a: seq<seq<int>>, b: seq<seq<int>>)
    requires forall i :: 0 <= i < |a| ==> |a[i]| > 0
    requires forall i :: 0 <= i < |b| ==> |b[i]| > 0
    ensures SumNext(a + b) == SumNext(a) + SumNext(b)
    ensures SumPrevious(a + b) == SumPrevious(a) + SumPrevious(b)
  {
    if a == [] {
      assert a + b == b;
    } else {
      assert (a + b)[1..] == a[1..] + b;
      SumsAppend(a[1..], b);
    }
  }

  /** `part_one`: every line must parse (a bad number panics), and the answer adds up
      the next value of every history. */
  function PartOne(input: string): (r: Option<int>)
    ensures r.Some? <==> ParseAll(Lines(input)).Some?
    ensures r.Some? ==> r.value == SumNext(ParseAll(Lines(input)).value)
  {
    match ParseAll(Lines(input))
    case None => None
    case Some(rows) => Some(SumNext(rows))
  }

  /** `part_two`: every line must parse, and the answer adds up the previous value of
      every history. */
  function PartTwo(input: string): (r: Option<int>)
    ensures r.Some? <==> ParseAll(Lines(input)).Some?
    ensures r.Some? ==> r.value == SumPrevious(ParseAll(Lines(input)).value)
  {
    match ParseAll(Lines(input))
    case None => None
    case Some(rows) => Some(SumPrevious(rows))
  }

  /** Part two equals part one on the same histories with each row reversed. */
  lemma {:induction false} SumPreviousReversed(rows: seq<seq<int>>)
    requires forall i :: 0 <= i < |rows| ==> |rows[i]| > 0
    ensures SumPrevious(rows) == SumNext(MapReverse(rows))
  {
    if rows != [] {
      BackIsReversedForward(rows[0]);
      SumPreviousReversed(rows[1..]);
      assert MapReverse(rows)[1..] == MapReverse(rows[1..]);
    }
  }

  function MapReverse(rows: seq<seq<int>>): (r: seq<seq<int>>)
    ensures |r| == |rows| && forall i :: 0 <= i < |rows| ==> r[i] == Reverse(rows[i])
  {
    if rows == [] then [] else [Reverse(rows[0])] + MapReverse(rows[1..])
  }
}
