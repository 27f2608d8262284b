/** Day 13: point of incidence. A pattern of ash and rocks is searched for a line of
    reflection between two rows, and failing that between two columns. */
module Day13Mirrors {
  import opened Prelude

  type Grid = seq<seq<char>>

  /** The rows above and below the line after row `r - 1` match pairwise outward, as
      far as both sides have rows. */
  predicate Reflects(grid: Grid, r: int) {
    1 <= r < |grid| &&
    forall k :: 0 <= k < r && r + k < |grid| ==> MirrorPair(grid, r, k)
  }

  /** Row `r - 1 - k` equals row `r + k`, both being rows of the grid. */
  predicate MirrorPair(grid: Grid, r: int, k: int) {
    0 <= k && 0 <= r - 1 - k && r + k < |grid| && grid[r - 1 - k] == grid[r + k]
  }

  /** The indices `i` whose window `grid[i..i + 2]` holds two equal rows, in order. */
  function DuplicatePairs(grid: Grid, from: nat): (r: seq<nat>)
    ensures forall t :: 0 <= t < |r| ==> from <= r[t] && r[t] + 1 < |grid| && grid[r[t]] == grid[r[t] + 1]
    ensures forall i :: from <= i && EqualPair(grid, i) ==> i in r
    ensures forall s, t :: 0 <= s < t < |r| ==> r[s] < r[t]
    decreases |grid| - from
  {
    if from + 1 >= |grid| then []
    else (if grid[from] == grid[from + 1] then [from] else []) + DuplicatePairs(grid, from + 1)
  }

  /** Row `i` equals the row below it. */
  predicate EqualPair(grid: Grid, i: int) {
    0 <= i && i + 1 < |grid| && grid[i] == grid[i + 1]
  }

  /** The first line of reflection at or after `r`. */
  function FirstReflection(grid: Grid, r: nat): (v: Option<nat>)
    ensures v.Some? ==> r <= v.value && Reflects(grid, v.value)
    ensures forall w :: r <= w && Reflects(grid, w) ==> v.Some? && v.value <= w
    decreases |grid| - r
  {
    if r >= |grid| then None
    else if Reflects(grid, r) then Some(r)
    else FirstReflection(grid, r + 1)
  }

  /** The comparison loop for the candidate `i`: rows are compared outward from the
      equal pair and the candidate is dropped at the first mismatch. */
  method IsMirrored(grid: Grid, i: nat) returns (mirrored: bool)
    requires i + 1 < |grid| && grid[i] == grid[i + 1]
    ensures mirrored <==> Reflects(grid, i + 1)
  {
    var upper, lower := i, i + 1;
    var line := i + 1;
    mirrored := true;
    while mirrored
      invariant 0 <= upper <= i && lower == 2 * i + 1 - upper && lower < |grid|
      invariant mirrored ==> forall k :: 0 <= k <= i - upper ==> MirrorPair(grid, line, k)
      invariant !mirrored ==> grid[upper] != grid[lower]
      decreases upper, if mirrored then 1 else 0
    {
      if upper == 0 { break; }
      if lower == |grid| - 1 { break; }
      upper, lower := upper - 1, lower + 1;
      mirrored := grid[upper] == grid[lower];
    }
    if !mirrored {
      assert !MirrorPair(grid, i + 1, i - upper);
    } else {
      forall k | 0 <= k < line && line + k < |grid|
        ensures MirrorPair(grid, line, k)
      {
        assert k <= i - upper;
      }
    }
  }

  /** Every line of reflection sits after one of the equal pairs. */
  lemma {:induction false} ReflectionIsPair(grid: Grid, pairs: seq<nat>, w: int)
    requires pairs == DuplicatePairs(grid, 0) && Reflects(grid, w)
    ensures exists s :: 0 <= s < |pairs| && pairs[s] + 1 == w
  {
    assert MirrorPair(grid, w, 0);
    assert EqualPair(grid, w - 1);
    assert w - 1 in pairs;
  }

  /** `Pattern::get_reflection_value_inner`: the first equal pair whose outward
      comparison survives gives the number of rows above the line. */
  method ReflectionInner(grid: Grid) returns (r: Option<nat>)
    ensures r == FirstReflection(grid, 0)
  {
    var pairs := DuplicatePairs(grid, 0);
    for t := 0 to |pairs|
      invariant forall s :: 0 <= s < t ==> !Reflects(grid, pairs[s] + 1)
    {
      var mirrored := IsMirrored(grid, pairs[t]);
      if mirrored {
        FirstIsCandidate(grid, pairs, t);
        return Some(pairs[t] + 1);
      }
    }
    NoCandidateSurvives(grid, pairs);
    return None;
  }

  lemma {:induction false} NoCandidateSurvives(grid: Grid, pairs: seq<nat>)
    requires pairs == DuplicatePairs(grid, 0)
    requires forall s :: 0 <= s < |pairs| ==> !Reflects(grid, pairs[s] + 1)
    ensures FirstReflection(grid, 0) == None
  {
    forall w | Reflects(grid, w)
      ensures false
    {
      ReflectionIsPair(grid, pairs, w);
    }
    FirstNone(grid, 0);
  }

  lemma {:induction false} FirstIsCandidate(grid: Grid, pairs: seq<nat>, t: nat)
    requires pairs == DuplicatePairs(grid, 0)
    requires t < |pairs| && Reflects(grid, pairs[t] + 1)
    requires forall s :: 0 <= s < t ==> !Reflects(grid, pairs[s] + 1)
    ensures FirstReflection(grid, 0) == Some(pairs[t] + 1)
  {
    var w := pairs[t] + 1;
    FirstAtMost(grid, w);
    var v := FirstReflection(grid, 0).value;
    var s := PairIndex(grid, pairs, v);
    NotBefore(grid, pairs, t, s);
    IncreasingIndex(pairs, s, t);
  }

  /** The equal pair a line of reflection sits after. */
  lemma {:induction false} PairIndex(grid: Grid, pairs: seq<nat>, w: int) returns (s: nat)
    requires pairs == DuplicatePairs(grid, 0) && Reflects(grid, w)
    ensures s < |pairs| && pairs[s] + 1 == w && Reflects(grid, pairs[s] + 1)
  {
    ReflectionIsPair(grid, pairs, w);
    s :| 0 <= s < |pairs| && pairs[s] + 1 == w;
  }

  /** A pair whose line reflects is not among those already found not to. */
  lemma {:induction false} NotBefore(grid: Grid, pairs: seq<nat>, t: nat, s: nat)
    requires t <= |pairs| && forall s :: 0 <= s < t ==> !Reflects(grid, pairs[s] + 1)
    requires s < |pairs| && Reflects(grid, pairs[s] + 1)
    ensures s >= t
  {
  }

  /** Some line of reflection exists at or before any given one. */
  lemma {:induction false} FirstAtMost(grid: Grid, w: nat)
    requires Reflects(grid, w)
    ensures FirstReflection(grid, 0).Some? && FirstReflection(grid, 0).value <= w
    ensures Reflects(grid, FirstReflection(grid, 0).value)
  {
  }

  /** In a strictly increasing list a value no larger than another sits no later. */
  lemma {:induction false} IncreasingIndex(pairs: seq<nat>, s: nat, t: nat)
    requires forall u, x :: 0 <= u < x < |pairs| ==> pairs[u] < pairs[x]
    requires s < |pairs| && t < |pairs| && pairs[s] <= pairs[t]
    ensures s <= t
  {
  }

  lemma {:induction false} FirstNone(grid: Grid, r: nat)
    requires forall w :: !Reflects(grid, w)
    ensures FirstReflection(grid, r) == None
    decreases |grid| - r
  {
    if r < |grid| {
      FirstNone(grid, r + 1);
    }
  }

  // ---------------------------------------------------------------- columns

  /** Every row reaches at least `width` characters. */
  predicate Wide(grid: Grid, width: nat) {
    forall j :: 0 <= j < |grid| ==> width <= |grid[j]|
  }

  /** `rotated_grid`: row `i` is column `i` read from the bottom row up. */
  function Rotated(grid: Grid): (r: Grid)
    requires |grid| > 0 && Wide(grid, |grid[0]|)
    ensures |r| == |grid[0]|
    ensures forall i :: 0 <= i < |r| ==> |r[i]| == |grid|
  {
    seq(|grid[0]|, i requires 0 <= i < |grid[0]| =>
      seq(|grid|, j requires 0 <= j < |grid| => grid[|grid| - 1 - j][i]))
  }

  /** A vertical line of reflection after column `c - 1`. */
  predicate ReflectsColumns(grid: Grid, width: nat, c: int) {
    1 <= c < width &&
    forall j, k :: 0 <= j < |grid| && 0 <= k < c && c + k < width ==> MirrorColumns(grid[j], c, k)
  }

  /** Column `c - 1 - k` of `row` equals its column `c + k`. */
  predicate MirrorColumns(row: seq<char>, c: int, k: int) {
    0 <= k && 0 <= c - 1 - k && c + k < |row| && row[c - 1 - k] == row[c + k]
  }

  /** A line of reflection of the rotated grid is a vertical line of reflection of the
      original pattern. */
  lemma {:induction false} RotatedReflects(grid: Grid, c: int)
    requires |grid| > 0 && Wide(grid, |grid[0]|)
    ensures Reflects(Rotated(grid), c) <==> ReflectsColumns(grid, |grid[0]|, c)
  {
    var rot, w, h := Rotated(grid), |grid[0]|, |grid|;
    if Reflects(rot, c) {
      forall j, k | 0 <= j < h && 0 <= k < c && c + k < w
        ensures MirrorColumns(grid[j], c, k)
      {
        assert MirrorPair(rot, c, k);
        assert rot[c - 1 - k][h - 1 - j] == grid[j][c - 1 - k];
        assert rot[c + k][h - 1 - j] == grid[j][c + k];
      }
    }
    if ReflectsColumns(grid, w, c) {
      forall k | 0 <= k < c && c + k < |rot|
        ensures MirrorPair(rot, c, k)
      {
        var a, b := rot[c - 1 - k], rot[c + k];
        forall j | 0 <= j < h
          ensures a[j] == b[j]
        {
          assert MirrorColumns(grid[h - 1 - j], c, k);
        }
      }
    }
  }

  /** `Pattern::get_reflection_value`: a row line counts 100 times the rows above it;
      otherwise the rotated grid is searched, and a pattern without any line (or one
      whose rows are too short to rotate) makes the program panic. */
  method ReflectionValue(grid: Grid) returns (r: Option<nat>)
    ensures r == ReflectionValueOf(grid)
  {
    var rows := ReflectionInner(grid);
    if rows.Some? {
      return Some(rows.value * 100);
    }
    if |grid| == 0 || !Wide(grid, |grid[0]|) {
      return None;
    }
    var cols := ReflectionInner(Rotated(grid));
    return cols;
  }

  function ReflectionValueOf(grid: Grid): Option<nat> {
    match FirstReflection(grid, 0)
    case Some(v) => Some(v * 100)
    case None =>
      if |grid| == 0 || !Wide(grid, |grid[0]|) then None else FirstReflection(Rotated(grid), 0)
  }

  /** A value is produced exactly when the pattern has a line of reflection, and it
      summarises the leftmost column line only when there is no row line. */
  lemma {:induction false} ReflectionValueSpec(grid: Grid)
    requires |grid| > 0 && Wide(grid, |grid[0]|)
    ensures ReflectionValueOf(grid).Some? <==>
      (exists r :: Reflects(grid, r)) || (exists c :: ReflectsColumns(grid, |grid[0]|, c))
    ensures forall r :: Reflects(grid, r) ==> ReflectionValueOf(grid).Some? && ReflectionValueOf(grid).value % 100 == 0
  {
    forall c ensures Reflects(Rotated(grid), c) <==> ReflectsColumns(grid, |grid[0]|, c) {
      RotatedReflects(grid, c);
    }
    var v := FirstReflection(grid, 0);
    if v.Some? {
      assert v.value * 100 % 100 == 0;
    }
  }

  // ---------------------------------------------------------------- parsing

  /** `Pattern::from_str`: one row per line. */
  function ParsePattern(block: string): Grid {
    Lines(block)
  }

  function SumValues(grids: seq<Grid>): Option<nat> {
    if grids == [] then Some(0)
    else match (ReflectionValueOf(grids[0]), SumValues(grids[1..]))
      case (Some(v), Some(rest)) => Some(v + rest)
      case _ => None
  }

  lemma {:induction false} SumValuesSuffix(grids: seq<Grid>, k: nat)
    requires k <= |grids| && SumValues(grids[k..]).None?
    ensures SumValues(grids).None?
  {
    if k > 0 {
      assert grids[1..][k - 1..] == grids[k..];
      SumValuesSuffix(grids[1..], k - 1);
    }
  }

  /** `part_one`: the patterns are separated by blank lines. */
  method PartOne(input: string) returns (r: Option<nat>)
    ensures r == SumValues(Patterns(input))
  {
    var grids := Patterns(input);
    var total := 0;
    var k := |grids|;
    assert grids[k..] == [];
    while k > 0
      invariant 0 <= k <= |grids|
      invariant SumValues(grids[k..]) == Some(total)
    {
      k := k - 1;
      var v := ReflectionValue(grids[k]);
      assert grids[k..][1..] == grids[k + 1..];
      if v.None? {
        SumValuesSuffix(grids, k);
        return None;
      }
      total := total + v.value;
    }
    r := Some(total);
  }

  function Patterns(input: string): seq<Grid> {
    var blocks := Split(input, "\n\n");
    seq(|blocks|, i requires 0 <= i < |blocks| => ParsePattern(blocks[i]))
  }
}
