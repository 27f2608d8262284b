/** Day 11: cosmic expansion. Every empty row and column of the image grows to
    `multiplier` rows or columns, and the answer sums the Manhattan distances of all
    pairs of galaxies. */
module Day11Galaxies {
  import opened Prelude

  type Pos = (nat, nat)

  /** Row-major order on (row, column) positions. */
  predicate Before(a: Pos, b: Pos) {
    a.0 < b.0 || (a.0 == b.0 && a.1 < b.1)
  }

  predicate StrictlyIncreasing(s: seq<nat>) {
    forall a, b :: 0 <= a < b < |s| ==> s[a] < s[b]
  }

  // ---------------------------------------------------------------- the scan, specified

  /** The galaxies of `line` (row `row`) among its first `j` characters, left to right. */
  function RowGalaxies(line: string, row: nat, j: nat): seq<Pos>
    requires j <= |line|
  {
    if j == 0 then []
    else RowGalaxies(line, row, j - 1) + (if line[j - 1] == '#' then [(row, j - 1)] else [])
  }

  /** The galaxies of the first `i` lines, in row-major order. */
  function GalaxiesBelow(lines: seq<string>, i: nat): seq<Pos>
    requires i <= |lines|
  {
    if i == 0 then [] else GalaxiesBelow(lines, i - 1) + RowGalaxies(lines[i - 1], i - 1, |lines[i - 1]|)
  }

  /** Every '#' of the image, in row-major order. */
  function Galaxies(lines: seq<string>): seq<Pos> {
    GalaxiesBelow(lines, |lines|)
  }

  lemma {:induction false} RowGalaxiesSpec(line: string, row: nat, j: nat)
    requires j <= |line|
    ensures forall g :: g in RowGalaxies(line, row, j) <==> g.0 == row && g.1 < j && line[g.1] == '#'
    ensures forall a, b :: 0 <= a < b < |RowGalaxies(line, row, j)| ==>
      RowGalaxies(line, row, j)[a].0 == row && RowGalaxies(line, row, j)[a].1 < RowGalaxies(line, row, j)[b].1
  {
    if j > 0 {
      RowGalaxiesSpec(line, row, j - 1);
      var prev := RowGalaxies(line, row, j - 1);
      var r := RowGalaxies(line, row, j);
      assert r == prev + (if line[j - 1] == '#' then [(row, j - 1)] else []);
      forall a, b | 0 <= a < b < |r| ensures r[a].0 == row && r[a].1 < r[b].1 {
        assert r[a] == prev[a];
        if b == |prev| {
          assert prev[a] in prev;
          assert r[b] == (row, j - 1);
        } else {
          assert r[b] == prev[b];
        }
      }
    } else {
      assert RowGalaxies(line, row, j) == [];
    }
  }

  /** The galaxy list holds exactly the '#' cells, each once, in row-major order. */
  lemma {:induction false} GalaxiesSpec(lines: seq<string>, i: nat)
    requires i <= |lines|
    ensures forall g :: g in GalaxiesBelow(lines, i) <==> g.0 < i && g.1 < |lines[g.0]| && lines[g.0][g.1] == '#'
    ensures forall a, b :: 0 <= a < b < |GalaxiesBelow(lines, i)| ==> Before(GalaxiesBelow(lines, i)[a], GalaxiesBelow(lines, i)[b])
  {
    if i > 0 {
      GalaxiesSpec(lines, i - 1);
      var prev := GalaxiesBelow(lines, i - 1);
      var row := RowGalaxies(lines[i - 1], i - 1, |lines[i - 1]|);
      RowGalaxiesSpec(lines[i - 1], i - 1, |lines[i - 1]|);
      var r := prev + row;
      forall a, b | 0 <= a < b < |r| ensures Before(r[a], r[b]) {
        if b < |prev| {
          assert r[a] == prev[a] && r[b] == prev[b];
        } else if a >= |prev| {
          assert r[a] == row[a - |prev|] && r[b] == row[b - |prev|];
        } else {
          assert r[a] in prev && r[b] in row;
        }
      }
    }
  }

  /** `line.chars().all(|c| c == '.')`. */
  predicate EmptyRow(line: string) {
    forall c :: 0 <= c < |line| ==> line[c] == '.'
  }

  /** Indices below `i` of the empty rows, ascending. */
  function EmptyRowsBelow(lines: seq<string>, i: nat): seq<nat>
    requires i <= |lines|
  {
    if i == 0 then [] else EmptyRowsBelow(lines, i - 1) + (if EmptyRow(lines[i - 1]) then [i - 1] else [])
  }

  function EmptyRows(lines: seq<string>): seq<nat> {
    EmptyRowsBelow(lines, |lines|)
  }

  /** The empty-row list holds exactly the indices of the rows made only of '.', in
      increasing order. */
  lemma {:induction false} EmptyRowsSpec(lines: seq<string>, i: nat)
    requires i <= |lines|
    ensures forall k: nat :: k in EmptyRowsBelow(lines, i) <==> k < i && EmptyRow(lines[k])
    ensures StrictlyIncreasing(EmptyRowsBelow(lines, i))
  {
    if i > 0 {
      EmptyRowsSpec(lines, i - 1);
      var prev := EmptyRowsBelow(lines, i - 1);
      assert forall a :: 0 <= a < |prev| ==> prev[a] in prev;
    }
  }

  /** 0, 1, .., n - 1. */
  function Range(n: nat): (r: seq<nat>)
    ensures |r| == n && forall i :: 0 <= i < n ==> r[i] == i
  {
    seq(n, i requires 0 <= i < n => i)
  }

  /** The entries of `cols` not in `seen`, in order. */
  function Keep(cols: seq<nat>, seen: set<nat>): seq<nat> {
    if cols == [] then [] else (if cols[0] in seen then [] else [cols[0]]) + Keep(cols[1..], seen)
  }

  /** Keep is the filter it is named after: exactly the entries outside `seen` remain,
      still in increasing order. */
  lemma {:induction false} KeepSpec(cols: seq<nat>, seen: set<nat>)
    ensures forall c :: c in Keep(cols, seen) <==> c in cols && c !in seen
    ensures StrictlyIncreasing(cols) ==> StrictlyIncreasing(Keep(cols, seen))
  {
    if cols != [] {
      KeepSpec(cols[1..], seen);
      var rest := Keep(cols[1..], seen);
      if StrictlyIncreasing(cols) {
        var r := Keep(cols, seen);
        var head := if cols[0] in seen then [] else [cols[0]];
        assert r == head + rest;
        assert StrictlyIncreasing(cols[1..]);
        forall a, b | 0 <= a < b < |r| ensures r[a] < r[b] {
          if |head| == 1 && a == 0 {
            assert r[b] == rest[b - 1] && rest[b - 1] in rest;
            var k :| 0 <= k < |cols[1..]| && cols[1..][k] == rest[b - 1];
            assert cols[k + 1] == r[b];
          } else {
            assert r[a] == rest[a - |head|] && r[b] == rest[b - |head|];
          }
        }
      }
    }
  }

  /** `Vec::retain(|e| e != x)`. */
  function Retain(s: seq<nat>, x: nat): seq<nat> {
    if s == [] then [] else (if s[0] == x then [] else [s[0]]) + Retain(s[1..], x)
  }

  lemma {:induction false} RetainKeep(cols: seq<nat>, seen: set<nat>, x: nat)
    ensures Retain(Keep(cols, seen), x) == Keep(cols, seen + {x})
  {
    if cols != [] {
      RetainKeep(cols[1..], seen, x);
      var rest := Keep(cols[1..], seen);
      if cols[0] !in seen {
        var k := [cols[0]] + rest;
        assert Keep(cols, seen) == k;
        assert k[0] == cols[0] && k[1..] == rest;
        assert Retain(k, x) == (if cols[0] == x then [] else [cols[0]]) + Retain(rest, x);
      } else {
        assert Keep(cols, seen) == [] + rest == rest;
        assert Keep(cols, seen + {x}) == [] + Keep(cols[1..], seen + {x});
      }
    }
  }

  lemma {:induction false} KeepNothing(cols: seq<nat>)
    ensures Keep(cols, {}) == cols
  {
    if cols != [] {
      KeepNothing(cols[1..]);
    }
  }

  function Columns(gs: seq<Pos>): set<nat> {
    set g | g in gs :: g.1
  }

  /** The candidate empty columns: `0..width - 1` (the last column index is never a
      candidate), minus every column holding a galaxy. */
  function EmptyCols(lines: seq<string>): seq<nat>
    requires |lines| > 0 && |lines[0]| > 0
  {
    Keep(Range(|lines[0]| - 1), Columns(Galaxies(lines)))
  }

  /** The candidate empty columns are exactly the columns left of the last one that
      hold no '#' in any line, in increasing order. */
  lemma {:induction false} EmptyColsSpec(lines: seq<string>)
    requires |lines| > 0 && |lines[0]| > 0
    ensures forall c: nat :: c in EmptyCols(lines) <==>
      c < |lines[0]| - 1 && forall r :: 0 <= r < |lines| && c < |lines[r]| ==> lines[r][c] != '#'
    ensures StrictlyIncreasing(EmptyCols(lines))
  {
    var gs := Galaxies(lines);
    var rg := Range(|lines[0]| - 1);
    GalaxiesSpec(lines, |lines|);
    KeepSpec(rg, Columns(gs));
    forall c: nat
      ensures c in EmptyCols(lines) <==>
        c < |lines[0]| - 1 && forall r :: 0 <= r < |lines| && c < |lines[r]| ==> lines[r][c] != '#'
    {
      assert c < |rg| ==> rg[c] == c;
      if c in Columns(gs) {
        var g :| g in gs && g.1 == c;
      }
      if exists r :: 0 <= r < |lines| && c < |lines[r]| && lines[r][c] == '#' {
        var r :| 0 <= r < |lines| && c < |lines[r]| && lines[r][c] == '#';
        assert (r, c) in gs;
      }
    }
  }

  // ---------------------------------------------------------------- the scan

  lemma {:induction false} ColumnsSnoc(gs: seq<Pos>, g: Pos)
    ensures Columns(gs + [g]) == Columns(gs) + {g.1}
  {
    assert forall h :: h in gs + [g] <==> h in gs || h == g;
  }

  /** The inner loop of the scan over one line: each '#' is recorded and its column
      leaves the candidates. */
  method ScanRow(line: string, row: nat, cols: seq<nat>, galaxies0: seq<Pos>, emptyCols0: seq<nat>)
    returns (galaxies: seq<Pos>, emptyCols: seq<nat>)
    requires emptyCols0 == Keep(cols, Columns(galaxies0))
    ensures galaxies == galaxies0 + RowGalaxies(line, row, |line|)
    ensures emptyCols == Keep(cols, Columns(galaxies))
  {
    galaxies, emptyCols := galaxies0, emptyCols0;
    var j := 0;
    while j < |line|
      invariant 0 <= j <= |line|
      invariant galaxies == galaxies0 + RowGalaxies(line, row, j)
      invariant emptyCols == Keep(cols, Columns(galaxies))
    {
      if line[j] == '#' {
        RetainKeep(cols, Columns(galaxies), j);
        ColumnsSnoc(galaxies, (row, j));
        galaxies := galaxies + [(row, j)];
        emptyCols := Retain(emptyCols, j);
      }
      j := j + 1;
    }
  }

  /** The scanning loop of `calc`: galaxies in row-major order, the empty rows, and the
      candidate columns from which every column with a galaxy has been retained away.
      An empty first line underflows `len() - 1`, so it is excluded. */
  method Scan(lines: seq<string>) returns (galaxies: seq<Pos>, emptyRows: seq<nat>, emptyCols: seq<nat>)
    requires |lines| > 0 && |lines[0]| > 0
    ensures galaxies == Galaxies(lines)
    ensures emptyRows == EmptyRows(lines)
    ensures emptyCols == EmptyCols(lines)
  {
    var cols := Range(|lines[0]| - 1);
    galaxies, emptyRows, emptyCols := [], [], cols;
    KeepNothing(cols);
    assert Columns([]) == {};
    var i := 0;
    while i < |lines|
      invariant 0 <= i <= |lines|
      invariant galaxies == GalaxiesBelow(lines, i)
      invariant emptyRows == EmptyRowsBelow(lines, i)
      invariant emptyCols == Keep(cols, Columns(galaxies))
    {
      if EmptyRow(lines[i]) {
        emptyRows := emptyRows + [i];
      }
      galaxies, emptyCols := ScanRow(lines[i], i, cols, galaxies, emptyCols);
      i := i + 1;
    }
  }

  // ---------------------------------------------------------------- expansion

  /** How many entries of `s` are below `x` (`iter().filter(|e| e < x).count()`). */
  function CountBelow(s: seq<nat>, x: nat): (n: nat)
    ensures n <= |s|
  {
    if s == [] then 0 else (if s[0] < x then 1 else 0) + CountBelow(s[1..], x)
  }

  /** How many entries of `s` lie in [lo, hi). */
  function CountBetween(s: seq<nat>, lo: nat, hi: nat): nat {
    if s == [] then 0 else (if lo <= s[0] < hi then 1 else 0) + CountBetween(s[1..], lo, hi)
  }

  /** A galaxy's position after every empty row and column before it has grown to
      `multiplier` copies. */
  function Expand(g: Pos, emptyRows: seq<nat>, emptyCols: seq<nat>, multiplier: nat): (e: Pos)
    requires multiplier >= 1
    ensures e.0 >= g.0 && e.1 >= g.1
    ensures multiplier == 1 ==> e == g
  {
    (g.0 + CountBelow(emptyRows, g.0) * (multiplier - 1),
     g.1 + CountBelow(emptyCols, g.1) * (multiplier - 1))
  }

  function ExpandAll(gs: seq<Pos>, emptyRows: seq<nat>, emptyCols: seq<nat>, multiplier: nat): (r: seq<Pos>)
    requires multiplier >= 1
    ensures |r| == |gs| && forall i :: 0 <= i < |gs| ==> r[i] == Expand(gs[i], emptyRows, emptyCols, multiplier)
  {
    seq(|gs|, i requires 0 <= i < |gs| => Expand(gs[i], emptyRows, emptyCols, multiplier))
  }

  lemma {:induction false} CountBelowSplit(s: seq<nat>, lo: nat, hi: nat)
    requires lo <= hi
    ensures CountBelow(s, hi) == CountBelow(s, lo) + CountBetween(s, lo, hi)
  {
    if s != [] {
      CountBelowSplit(s[1..], lo, hi);
    }
  }

  /** Between two expanded coordinates lie the original gap plus `multiplier - 1` extra
      lines for every empty line in between. */
  lemma {:induction false} ExpandedGap(lo: nat, hi: nat, empty: seq<nat>, multiplier: nat)
    requires lo <= hi && multiplier >= 1
    ensures (hi + CountBelow(empty, hi) * (multiplier - 1)) - (lo + CountBelow(empty, lo) * (multiplier - 1))
      == (hi - lo) + CountBetween(empty, lo, hi) * (multiplier - 1)
  {
    CountBelowSplit(empty, lo, hi);
    var k := multiplier - 1;
    var below, between := CountBelow(empty, lo), CountBetween(empty, lo, hi);
    MulAddRight(below, between, k);
  }

  lemma {:induction false} MulAddRight(a: nat, b: nat, k: nat)
    ensures (a + b) * k == a * k + b * k
  {
  }

  // ---------------------------------------------------------------- distances

  function AbsDiff(a: nat, b: nat): nat {
    if a >= b then a - b else b - a
  }

  /** The Manhattan distance, computed without going below zero. */
  function Distance(a: Pos, b: Pos): (d: nat)
    ensures d == 0 <==> a == b
    ensures d >= AbsDiff(a.0, b.0) && d >= AbsDiff(a.1, b.1)
  {
    AbsDiff(a.0, b.0) + AbsDiff(a.1, b.1)
  }

  /** Distance does not depend on the order of the pair. */
  lemma {:induction false} DistanceSymmetric(a: Pos, b: Pos)
    ensures Distance(a, b) == Distance(b, a)
  {
  }

  /** The distances from `g` to every galaxy of `gs`, summed. */
  function SumTo(g: Pos, gs: seq<Pos>): nat {
    if gs == [] then 0 else Distance(g, gs[0]) + SumTo(g, gs[1..])
  }

  /** `tuple_combinations()` then `sum()`: every unordered pair once, the pairs with
      the first galaxy before those of the rest. */
  function PairSum(gs: seq<Pos>): nat {
    if gs == [] then 0 else SumTo(gs[0], gs[1..]) + PairSum(gs[1..])
  }

  lemma {:induction false} SumToAppend(g: Pos, a: seq<Pos>, b: seq<Pos>)
    ensures SumTo(g, a + b) == SumTo(g, a) + SumTo(g, b)
  {
    if a == [] {
      assert a + b == b;
    } else {
      assert (a + b)[1..] == a[1..] + b;
      SumToAppend(g, a[1..], b);
    }
  }

  function SumFrom(gs: seq<Pos>, g: Pos): nat {
    if gs == [] then 0 else Distance(gs[0], g) + SumFrom(gs[1..], g)
  }

  /** A galaxy added last pairs once with every earlier galaxy and with nothing else. */
  lemma {:induction false} PairSumSnoc(gs: seq<Pos>, g: Pos)
    ensures PairSum(gs + [g]) == PairSum(gs) + SumFrom(gs, g)
  {
    if gs == [] {
      assert [] + [g] == [g];
    } else {
      assert (gs + [g])[1..] == gs[1..] + [g];
      PairSumSnoc(gs[1..], g);
      SumToAppend(gs[0], gs[1..], [g]);
    }
  }

  /** Two galaxies are exactly their distance apart. */
  lemma {:induction false} PairSumTwo(a: Pos, b: Pos)
    ensures PairSum([a, b]) == Distance(a, b)
  {
    assert [a, b][1..] == [b];
    assert SumTo(a, [b]) == Distance(a, b) + SumTo(a, []);
    assert PairSum([b]) == SumTo(b, []) + PairSum([]);
  }

  // ---------------------------------------------------------------- calc

  /** `calc`: the pairwise distance sum over the expanded galaxies. */
  function Answer(lines: seq<string>, multiplier: nat): nat
    requires |lines| > 0 && |lines[0]| > 0 && multiplier >= 1
  {
    PairSum(ExpandAll(Galaxies(lines), EmptyRows(lines), EmptyCols(lines), multiplier))
  }

  method Calc(lines: seq<string>, multiplier: nat) returns (r: nat)
    requires |lines| > 0 && |lines[0]| > 0 && multiplier >= 1
    ensures r == Answer(lines, multiplier)
  {
    var galaxies, emptyRows, emptyCols := Scan(lines);
    r := PairSum(ExpandAll(galaxies, emptyRows, emptyCols, multiplier));
  }

  /** With multiplier 1 nothing expands: the answer is the plain pairwise distance sum. */
  lemma {:induction false} NoExpansion(lines: seq<string>)
    requires |lines| > 0 && |lines[0]| > 0
    ensures Answer(lines, 1) == PairSum(Galaxies(lines))
  {
    var gs := Galaxies(lines);
    assert ExpandAll(gs, EmptyRows(lines), EmptyCols(lines), 1) == gs;
  }

  /** The last column never being a candidate cannot change a galaxy's expansion: no
      galaxy of a rectangular image lies to the right of the last column. */
  lemma {:induction false} LastColumnIrrelevant(cols: seq<nat>, last: nat, c: nat)
    requires c <= last
    ensures CountBelow(cols + [last], c) == CountBelow(cols, c)
  {
    CountBelowAppend(cols, [last], c);
    assert CountBelow([last], c) == 0;
  }

  lemma {:induction false} CountBelowAppend(a: seq<nat>, b: seq<nat>, x: nat)
    ensures CountBelow(a + b, x) == CountBelow(a, x) + CountBelow(b, x)
  {
    if a == [] {
      assert a + b == b;
    } else {
      assert (a + b)[1..] == a[1..] + b;
      CountBelowAppend(a[1..], b, x);
    }
  }

  /** `part_one`: galaxies grow to twice their size; an empty first line panics (None). */
  method PartOne(input: string) returns (r: Option<nat>)
    ensures r.Some? <==> |Lines(input)| > 0 && |Lines(input)[0]| > 0
    ensures r.Some? ==> r.value == Answer(Lines(input), 2)
  {
    var lines := Lines(input);
    if |lines| > 0 && |lines[0]| > 0 {
      var n := Calc(lines, 2);
      r := Some(n);
    } else {
      r := None;
    }
  }

  /** `part_two`: every empty row and column grows to a million copies. */
  method PartTwo(input: string) returns (r: Option<nat>)
    ensures r.Some? <==> |Lines(input)| > 0 && |Lines(input)[0]| > 0
    ensures r.Some? ==> r.value == Answer(Lines(input), 1000000)
  {
    var lines := Lines(input);
    if |lines| > 0 && |lines[0]| > 0 {
      var n := Calc(lines, 1000000);
      r := Some(n);
    } else {
      r := None;
    }
  }
}
