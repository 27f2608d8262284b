/** Day 14: the parabolic reflector dish. The platform is stored one column (or row) at
    a time as a map from index to what sits there; round rocks roll toward one end
    until they meet another rock, and the load counts each round rock by its distance
    from the far end. */
module Day14Reflector {
  import opened Prelude

  /** `Item`: a round rock (`Dish`), a cube rock, or nothing. */
  datatype Item = Dish | Rock | Empty

  /** `Item::from`. */
  function ItemOf(c: char): (r: Item)
    ensures r == Dish <==> c == 'O'
    ensures r == Rock <==> c == '#'
  {
    match c
    case 'O' => Dish
    case '#' => Rock
    case _ => Empty
  }

  datatype Direction = North | East | South | West

  /** One column or row: index to item; empty cells are absent. */
  type Line = map<nat, Item>

  predicate IsDish(m: Line, k: nat) {
    k in m && m[k] == Dish
  }

  predicate IsRock(m: Line, k: nat) {
    k in m && m[k] == Rock
  }

  // ---------------------------------------------------------------- rolling toward 0

  /** The inner loop of `calc`: step down over free indices and stop before the first
      occupied one. */
  function SlideDown(m: Line, x: nat): (r: nat)
    ensures r <= x
  {
    if x == 0 || (x - 1) in m then x else SlideDown(m, x - 1)
  }

  lemma {:induction false} SlideDownSpec(m: Line, x: nat)
    ensures forall k :: SlideDown(m, x) <= k < x ==> k !in m
    ensures SlideDown(m, x) == 0 || SlideDown(m, x) - 1 in m
  {
    if !(x == 0 || (x - 1) in m) {
      SlideDownSpec(m, x - 1);
    }
  }

  /** A dish at `x` moves to the index it slides to. */
  function Move(m: Line, x: nat, to: nat): Line {
    if to != x then (m - {x})[to := Dish] else m
  }

  function RollDown(m: Line, x: nat): Line {
    if IsDish(m, x) then Move(m, x, SlideDown(m, x)) else m
  }

  /** The outer loop of `calc` (and of `tilt_list` toward North or West): the indices
      `x .. n - 1` in increasing order. */
  function RollDownFrom(m: Line, x: nat, n: nat): Line
    decreases n - x
  {
    if x >= n then m else RollDownFrom(RollDown(m, x), x + 1, n)
  }

  function TiltedDown(m: Line, n: nat): Line {
    RollDownFrom(m, 1, n)
  }

  /** Every dish below `x` has rolled as far as it can: it is at 0 or sits right after
      an occupied index. */
  ghost predicate SettledBelow(m: Line, x: nat) {
    forall k: nat :: 0 < k < x && IsDish(m, k) ==> k - 1 in m
  }

  /** What a roll does not change: the cube rocks, the number of stored items and the
      indices outside `0 .. x`. */
  ghost predicate SameFrame(m: Line, m': Line, x: nat) {
    (forall k: nat :: IsRock(m, k) <==> IsRock(m', k)) && |m'.Keys| == |m.Keys| &&
    (forall k: nat :: k > x ==> (k in m <==> k in m') && (k in m ==> m[k] == m'[k]))
  }

  lemma {:induction false} MoveFrame(m: Line, x: nat, to: nat)
    requires IsDish(m, x) && (to == x || to !in m)
    ensures |Move(m, x, to).Keys| == |m.Keys|
    ensures forall k: nat :: IsRock(m, k) <==> IsRock(Move(m, x, to), k)
  {
    if to != x {
      var m' := Move(m, x, to);
      assert m'.Keys == (m.Keys - {x}) + {to};
      assert |m.Keys - {x}| == |m.Keys| - 1 by {
        assert m.Keys == (m.Keys - {x}) + {x};
      }
    }
  }

  lemma {:induction false} RollDownStep(m: Line, x: nat)
    requires SettledBelow(m, x)
    ensures SettledBelow(RollDown(m, x), x + 1)
    ensures SameFrame(m, RollDown(m, x), x)
  {
    if IsDish(m, x) {
      var to := SlideDown(m, x);
      SlideDownSpec(m, x);
      MoveFrame(m, x, to);
      var m' := RollDown(m, x);
      forall k: nat | 0 < k < x + 1 && IsDish(m', k)
        ensures k - 1 in m'
      {
        if k == to {
        } else if k < to {
          assert IsDish(m, k);
        }
      }
    }
  }

  lemma {:induction false} RollDownFromSpec(m: Line, x: nat, n: nat)
    requires 1 <= x && SettledBelow(m, x)
    ensures SettledBelow(RollDownFrom(m, x, n), n)
    ensures SameFrame(m, RollDownFrom(m, x, n), n)
    decreases n - x
  {
    if x < n {
      RollDownStep(m, x);
      RollDownFromSpec(RollDown(m, x), x + 1, n);
    }
  }

  /** Tilting toward index 0 settles every dish, keeps the cube rocks where they are,
      keeps the number of items and touches nothing at or beyond `n`. */
  lemma {:induction false} TiltedDownSpec(m: Line, n: nat)
    ensures SettledBelow(TiltedDown(m, n), n)
    ensures SameFrame(m, TiltedDown(m, n), n)
  {
    RollDownFromSpec(m, 1, n);
  }

  // ---------------------------------------------------------------- load

  /** The load of the indices below `k`: a dish at `p` weighs `n - p`. */
  function LoadBelow(m: Line, k: nat, n: nat): int {
    if k == 0 then 0
    else LoadBelow(m, k - 1, n) + (if IsDish(m, k - 1) then n - (k - 1) else 0)
  }

  function Load(m: Line, n: nat): int {
    LoadBelow(m, n, n)
  }

  lemma {:induction false} LoadAgree(m: Line, m': Line, k: nat, n: nat)
    requires forall p: nat :: p < k ==> (IsDish(m, p) <==> IsDish(m', p))
    ensures LoadBelow(m, k, n) == LoadBelow(m', k, n)
  {
    if k > 0 {
      LoadAgree(m, m', k - 1, n);
    }
  }

  lemma {:induction false} LoadGap(m: Line, a: nat, b: nat, n: nat)
    requires a <= b
    requires forall p: nat :: a <= p < b ==> !IsDish(m, p)
    ensures LoadBelow(m, b, n) == LoadBelow(m, a, n)
    decreases b
  {
    if b > a {
      LoadGap(m, a, b - 1, n);
    }
  }

  lemma {:induction false} LoadNonNegative(m: Line, k: nat, n: nat)
    requires k <= n
    ensures LoadBelow(m, k, n) >= 0
  {
    if k > 0 {
      LoadNonNegative(m, k - 1, n);
    }
  }

  /** Rolling the dish at `x` adds its weight at the index where it stops. */
  lemma {:induction false} RollDownLoad(m: Line, x: nat, n: nat)
    requires IsDish(m, x)
    ensures LoadBelow(RollDown(m, x), x + 1, n) == LoadBelow(m, x, n) + n - SlideDown(m, x)
  {
    var to := SlideDown(m, x);
    var m' := RollDown(m, x);
    SlideDownSpec(m, x);
    LoadAgree(m, m', to, n);
    LoadGap(m', to + 1, x + 1, n);
    LoadGap(m, to, x, n);
  }

  /** `calc`: tilt toward index 0 and report the load, counted as the dishes stop. */
  method Calc(list: Line, n: nat) returns (result: int, tilted: Line)
    ensures tilted == TiltedDown(list, n)
    ensures result == Load(tilted, n)
  {
    result := 0;
    tilted := list;
    if IsDish(tilted, 0) {
      result := n;
    }
    if n == 0 {
      return;
    }
    for x := 1 to n
      invariant RollDownFrom(tilted, x, n) == TiltedDown(list, n)
      invariant result == LoadBelow(tilted, x, n)
    {
      if !IsDish(tilted, x) {
        continue;
      }
      var newX := x;
      var otherX := x;
      while otherX > 0
        invariant 0 <= otherX <= x && newX == otherX
        invariant SlideDown(tilted, otherX) == SlideDown(tilted, x)
      {
        otherX := otherX - 1;
        if otherX in tilted {
          break;
        }
        newX := otherX;
      }
      RollDownLoad(tilted, x, n);
      if newX != x {
        tilted := (tilted - {x})[newX := Dish];
      }
      result := result + (n - newX);
    }
  }

  /** `calc_2`: the load of a line as it lies. */
  method Calc2(list: Line, n: nat) returns (result: int)
    ensures result == Load(list, n)
  {
    result := 0;
    for x := 0 to n
      invariant result == LoadBelow(list, x, n)
    {
      if IsDish(list, x) {
        result := result + (n - x);
      }
    }
  }

  /** Lines with the same dishes between `k` and `j` gain the same load there. */
  lemma {:induction false} LoadTail(m: Line, m': Line, k: nat, j: nat, n: nat)
    requires k <= j
    requires forall p: nat :: k <= p < j ==> (IsDish(m, p) <==> IsDish(m', p))
    ensures LoadBelow(m', j, n) - LoadBelow(m', k, n) == LoadBelow(m, j, n) - LoadBelow(m, k, n)
    decreases j
  {
    if j > k {
      LoadTail(m, m', k, j - 1, n);
    }
  }

  /** Rolling one dish toward index 0 never lowers the load of the line. */
  lemma {:induction false} RollDownRaises(m: Line, x: nat, n: nat)
    requires x < n
    ensures Load(RollDown(m, x), n) >= Load(m, n)
  {
    if IsDish(m, x) {
      var m' := RollDown(m, x);
      RollDownLoad(m, x, n);
      forall p: nat | x + 1 <= p < n
        ensures IsDish(m, p) <==> IsDish(m', p)
      {
      }
      LoadTail(m, m', x + 1, n, n);
    }
  }

  lemma {:induction false} RollDownFromRaises(m: Line, x: nat, n: nat)
    ensures Load(RollDownFrom(m, x, n), n) >= Load(m, n)
    decreases n - x
  {
    if x < n {
      RollDownRaises(m, x, n);
      RollDownFromRaises(RollDown(m, x), x + 1, n);
    }
  }

  /** The load `calc` reports, that of the tilted line, is never below the load the
      line had before the tilt (what `calc_2` measures on it), and never negative. */
  lemma {:induction false} CalcLoad(m: Line, n: nat)
    ensures Load(TiltedDown(m, n), n) >= Load(m, n)
    ensures Load(TiltedDown(m, n), n) >= 0
  {
    RollDownFromRaises(m, 1, n);
    LoadNonNegative(TiltedDown(m, n), n, n);
  }

  // ---------------------------------------------------------------- rolling toward n

  /** The inner loop of `tilt_list` toward South or East: step up over free indices
      below `n`. */
  function SlideUp(m: Line, x: nat, n: nat): (r: nat)
    ensures x <= r && (x < n ==> r < n)
    decreases n - x
  {
    if x + 1 >= n || (x + 1) in m then x else SlideUp(m, x + 1, n)
  }

  lemma {:induction false} SlideUpSpec(m: Line, x: nat, n: nat)
    ensures forall k :: x < k <= SlideUp(m, x, n) ==> k !in m
    ensures SlideUp(m, x, n) + 1 >= n || SlideUp(m, x, n) + 1 in m
    decreases n - x
  {
    if !(x + 1 >= n || (x + 1) in m) {
      SlideUpSpec(m, x + 1, n);
    }
  }

  function RollUp(m: Line, x: nat, n: nat): Line {
    if IsDish(m, x) then Move(m, x, SlideUp(m, x, n)) else m
  }

  /** The start indices `x - 1, x - 2, .., 0`, in that order. */
  function RollUpBelow(m: Line, x: nat, n: nat): Line
    decreases x
  {
    if x == 0 then m else RollUpBelow(RollUp(m, x - 1, n), x - 1, n)
  }

  /** Tilting toward the far end as intended: every start index `n - 2` down to 0. */
  function TiltedUp(m: Line, n: nat): Line {
    RollUpBelow(m, if n >= 1 then n - 1 else 0, n)
  }

  /** `tilt_list` toward South or East as written: the starts are
      `(0..full_length - 2).rev()`, which leaves out index `n - 2`, and the subtraction
      underflows (a panic) when `n < 2`. */
  function TiltedUpAsWritten(m: Line, n: nat): Option<Line> {
    if n < 2 then None else Some(RollUpBelow(m, n - 2, n))
  }

  /** Every dish at or above `x` (and below `n - 1`) has a neighbour toward the far end. */
  ghost predicate SettledAbove(m: Line, x: nat, n: nat) {
    forall k: nat :: x <= k && k + 1 < n && IsDish(m, k) ==> k + 1 in m
  }

  lemma {:induction false} RollUpStep(m: Line, x: nat, n: nat)
    requires x + 1 < n && SettledAbove(m, x + 1, n)
    ensures SettledAbove(RollUp(m, x, n), x, n)
    ensures forall k: nat :: IsRock(m, k) <==> IsRock(RollUp(m, x, n), k)
    ensures |RollUp(m, x, n).Keys| == |m.Keys|
  {
    if IsDish(m, x) {
      var to := SlideUp(m, x, n);
      SlideUpSpec(m, x, n);
      MoveFrame(m, x, to);
      var m' := RollUp(m, x, n);
      forall k: nat | x <= k && k + 1 < n && IsDish(m', k)
        ensures k + 1 in m'
      {
        if k == to {
        } else if k > to {
          assert IsDish(m, k);
        }
      }
    }
  }

  lemma {:induction false} RollUpBelowSpec(m: Line, x: nat, n: nat)
    requires x < n && SettledAbove(m, x, n)
    ensures SettledAbove(RollUpBelow(m, x, n), 0, n)
    ensures forall k: nat :: IsRock(m, k) <==> IsRock(RollUpBelow(m, x, n), k)
    ensures |RollUpBelow(m, x, n).Keys| == |m.Keys|
    decreases x
  {
    if x > 0 {
      RollUpStep(m, x - 1, n);
      RollUpBelowSpec(RollUp(m, x - 1, n), x - 1, n);
    }
  }

  /** Tilting toward the far end, with every start index, leaves each dish below
      `n - 1` against an occupied index, keeps the cube rocks and the item count. */
  lemma {:induction false} TiltedUpSpec(m: Line, n: nat)
    ensures SettledAbove(TiltedUp(m, n), 0, n)
    ensures forall k: nat :: IsRock(m, k) <==> IsRock(TiltedUp(m, n), k)
    ensures |TiltedUp(m, n).Keys| == |m.Keys|
  {
    if n >= 1 {
      RollUpBelowSpec(m, n - 1, n);
    }
  }

  /** A dish next to the far end's free index: as written it does not move. */
  lemma {:induction false} TiltedUpAsWrittenSkips()
    ensures TiltedUpAsWritten(map[1 := Dish], 3) == Some(map[1 := Dish])
    ensures !SettledAbove(map[1 := Dish], 0, 3)
    ensures TiltedUp(map[1 := Dish], 3) == map[2 := Dish]
  {
    var m: Line := map[1 := Dish];
    assert RollUp(m, 0, 3) == m;
    assert IsDish(m, 1) && 2 !in m;
    assert SlideUp(m, 1, 3) == 2;
    assert (m - {1})[2 := Dish] == map[2 := Dish];
    var m': Line := map[2 := Dish];
    assert RollUp(m, 1, 3) == m';
    assert RollUp(m', 0, 3) == m';
    assert RollUpBelow(m', 1, 3) == RollUpBelow(m', 0, 3);
  }

  /** `tilt_list` with the start indices toward South and East corrected to every index
      before the last. */
  method TiltList(list: Line, n: nat, dir: Direction) returns (tilted: Line)
    ensures dir in {North, West} ==> tilted == TiltedDown(list, n)
    ensures dir in {South, East} ==> tilted == TiltedUp(list, n)
  {
    tilted := list;
    if dir == North || dir == West {
      var unused;
      unused, tilted := Calc(list, n);
      return;
    }
    var x: nat := if n >= 1 then n - 1 else 0;
    while x > 0
      invariant RollUpBelow(tilted, x, n) == TiltedUp(list, n)
    {
      x := x - 1;
      if !IsDish(tilted, x) {
        continue;
      }
      var newX := x;
      var otherX := x + 1;
      while otherX < n
        invariant x < otherX <= n && newX == otherX - 1
        invariant SlideUp(tilted, newX, n) == SlideUp(tilted, x, n)
      {
        if otherX in tilted {
          break;
        }
        newX := otherX;
        otherX := otherX + 1;
      }
      if newX != x {
        tilted := (tilted - {x})[newX := Dish];
      }
    }
  }

  // ---------------------------------------------------------------- transposing

  /** `to_rows` / `to_cols`: entry `x` of the result holds, at key `y`, the item that
      line `y` holds at key `x`. */
  function Transposed(lists: seq<Line>, size: nat): (r: seq<Line>)
    ensures |r| == size
  {
    seq(size, x requires 0 <= x < size => map y: nat | y < |lists| && x in lists[y] :: lists[y][x])
  }

  method Transpose(lists: seq<Line>, size: nat) returns (r: seq<Line>)
    ensures r == Transposed(lists, size)
  {
    r := [];
    for x := 0 to size
      invariant r == Transposed(lists, x)
    {
      var line: Line := map[];
      for y := 0 to |lists|
        invariant line == map y': nat | y' < y && x in lists[y'] :: lists[y'][x]
      {
        if x in lists[y] {
          line := line[y := lists[y][x]];
        }
      }
      r := r + [line];
    }
  }

  /** Transposing twice gives every line back, cut to the keys below `size`. */
  lemma {:induction false} TransposeTwice(lists: seq<Line>, size: nat)
    ensures Transposed(Transposed(lists, size), |lists|) ==
      seq(|lists|, y requires 0 <= y < |lists| => map x: nat | x < size && x in lists[y] :: lists[y][x])
  {
    var t := Transposed(lists, size);
    var tt := Transposed(t, |lists|);
    forall y | 0 <= y < |lists|
      ensures tt[y] == map x: nat | x < size && x in lists[y] :: lists[y][x]
    {
      var want := map x: nat | x < size && x in lists[y] :: lists[y][x];
      forall x: nat
        ensures x in tt[y] <==> x in want
      {
        if x < size {
          assert t[x] == map y': nat | y' < |lists| && x in lists[y'] :: lists[y'][x];
        }
      }
      assert tt[y].Keys == want.Keys;
    }
  }

  // ---------------------------------------------------------------- part one

  /** Column `y` of the schematic: the row index of every dish and cube rock in it. */
  function Column(lines: seq<string>, y: nat): Line {
    map r: nat | r < |lines| && y < |lines[r]| && ItemOf(lines[r][y]) != Empty :: ItemOf(lines[r][y])
  }

  /** Empty cells are never stored. */
  lemma {:induction false} ColumnItems(lines: seq<string>, y: nat)
    ensures forall r :: r in Column(lines, y) ==> Column(lines, y)[r] != Empty
    ensures forall r :: r in Column(lines, y) ==> r < |lines|
  {
  }

  function TotalLoad(lines: seq<string>, width: nat): int {
    if width == 0 then 0
    else TotalLoad(lines, width - 1) + Load(TiltedDown(Column(lines, width - 1), |lines|), |lines|)
  }

  /** `part_one`: every column tilted north; the width is that of the first line, and
      an input without lines makes the program panic. */
  method PartOne(input: string) returns (r: Option<int>)
    ensures Lines(input) == [] ==> r == None
    ensures Lines(input) != [] ==> r == Some(TotalLoad(Lines(input), |Lines(input)[0]|))
  {
    var lines := Lines(input);
    if lines == [] {
      return None;
    }
    var width, height := |lines[0]|, |lines|;
    var total := 0;
    for y := 0 to width
      invariant total == TotalLoad(lines, y)
    {
      var load, unused := Calc(Column(lines, y), height);
      total := total + load;
    }
    return Some(total);
  }
}
