/** Day 22: bricks of sand falling into a stack, and the bricks that could be taken
    away without any other brick falling further. */
module Day22Bricks {
  import opened Prelude

  // ---------------------------------------------------------------- bricks

  datatype Position = Position(x: nat, y: nat, z: nat)

  /** A brick is the box between two corners; `id` is its line number in the input. */
  datatype Brick = Brick(id: nat, from: Position, to: Position)

  /** `Position::from_str`: comma-separated numbers, of which the first three are
      the coordinates; None for a piece that is not a number or fewer than three
      pieces (the `unwrap` and the indexing). */
  function ParsePosition(s: string): (r: Option<Position>)
    ensures r.Some? ==> |SplitChar(s, ',')| >= 3
  {
    match ParseNats(SplitChar(s, ','))
    case None => None
    case Some(c) => if |c| < 3 then None else Some(Position(c[0], c[1], c[2]))
  }

  function PositionText(p: Position): string {
    NatToString(p.x) + "," + NatToString(p.y) + "," + NatToString(p.z)
  }

  lemma {:induction false} NoComma(n: nat)
    ensures ',' !in NatToString(n) && '~' !in NatToString(n)
  {
    var s := NatToString(n);
    forall i | 0 <= i < |s| ensures s[i] != ',' && s[i] != '~' {
      assert IsAsciiDigit(s[i]);
    }
  }

  /** Printing a position and parsing it back gives the position. */
  lemma {:induction false} ParsePositionText(p: Position)
    ensures ParsePosition(PositionText(p)) == Some(p)
  {
    var a, b, c := NatToString(p.x), NatToString(p.y), NatToString(p.z);
    NoComma(p.x);
    NoComma(p.y);
    NoComma(p.z);
    assert PositionText(p) == a + [','] + (b + [','] + c);
    SplitCharAt(a, ',', b + [','] + c);
    SplitCharAt(b, ',', c);
    SplitCharAbsent(c, ',');
    assert SplitChar(PositionText(p), ',') == [a, b, c];
    ParseNatToString(p.x);
    ParseNatToString(p.y);
    ParseNatToString(p.z);
    ParseNatsOf([a, b, c], [p.x, p.y, p.z]);
  }

  /** `Brick::create`: the first two `~`-separated pieces are the corners. */
  function CreateBrick(s: string, i: nat): (r: Option<Brick>)
    ensures r.Some? ==> r.value.id == i && |SplitChar(s, '~')| >= 2
  {
    var parts := SplitChar(s, '~');
    if |parts| < 2 then None
    else match (ParsePosition(parts[0]), ParsePosition(parts[1]))
      case (Some(from), Some(to)) => Some(Brick(i, from, to))
      case _ => None
  }

  /** Printing a brick's corners and parsing them back gives the brick. */
  lemma {:induction false} CreateBrickText(b: Brick)
    ensures CreateBrick(PositionText(b.from) + "~" + PositionText(b.to), b.id) == Some(b)
  {
    var f, t := PositionText(b.from), PositionText(b.to);
    NoComma(b.from.x);
    NoComma(b.from.y);
    NoComma(b.from.z);
    NoComma(b.to.x);
    NoComma(b.to.y);
    NoComma(b.to.z);
    assert '~' !in f;
    assert '~' !in t;
    assert f + "~" + t == f + ['~'] + t;
    SplitCharAt(f, '~', t);
    SplitCharAbsent(t, '~');
    ParsePositionText(b.from);
    ParsePositionText(b.to);
  }

  /** `enumerate` then `map`: every line parsed with its index, counted from `first`;
      the whole fails when one line does. */
  function ParseEach<T>(parse: (string, nat) -> Option<T>, lines: seq<string>, first: nat): Option<seq<T>> {
    if lines == [] then Some([])
    else match (parse(lines[0], first), ParseEach(parse, lines[1..], first + 1))
      case (Some(b), Some(rest)) => Some([b] + rest)
      case _ => None
  }

  /** Parsing succeeds exactly when every line parses, the i-th line giving the i-th
      item. */
  lemma {:induction false} ParseEachSpec<T>(parse: (string, nat) -> Option<T>, lines: seq<string>, first: nat)
    ensures var r := ParseEach(parse, lines, first);
      r.Some? ==> (|r.value| == |lines|
        && forall i :: 0 <= i < |lines| ==> parse(lines[i], first + i) == Some(r.value[i]))
    ensures ParseEach(parse, lines, first).None? ==> exists i :: 0 <= i < |lines| && parse(lines[i], first + i).None?
  {
    if lines != [] {
      ParseEachSpec(parse, lines[1..], first + 1);
      match (parse(lines[0], first), ParseEach(parse, lines[1..], first + 1))
      case (Some(b), Some(rest)) =>
        assert forall i :: 1 <= i < |lines| ==> lines[1..][i - 1] == lines[i];
      case (None, _) =>
      case (_, None) =>
        var i :| 0 <= i < |lines[1..]| && parse(lines[1..][i], first + 1 + i).None?;
        assert parse(lines[i + 1], first + (i + 1)).None?;
    }
  }

  /** Every line as a brick, numbered from `first`: it succeeds exactly when every
      line is a brick, and the parsed bricks carry the numbers of their lines. */
  function ParseBricks(lines: seq<string>, first: nat): (r: Option<seq<Brick>>)
    ensures r.Some? <==> forall i :: 0 <= i < |lines| ==> CreateBrick(lines[i], first + i).Some?
    ensures r.Some? ==> |r.value| == |lines|
    ensures r.Some? ==> forall i :: 0 <= i < |lines| ==>
      CreateBrick(lines[i], first + i) == Some(r.value[i]) && r.value[i].id == first + i
  {
    ParseEachSpec(CreateBrick, lines, first);
    ParseEach(CreateBrick, lines, first)
  }

  predicate DistinctIds(bricks: seq<Brick>) {
    forall i, j :: 0 <= i < j < |bricks| ==> bricks[i].id != bricks[j].id
  }

  // ---------------------------------------------------------------- overlap

  /** `intersects`: two closed ranges share a value. */
  predicate Intersects(a: (nat, nat), b: (nat, nat)) {
    a.0 <= b.1 && a.1 >= b.0
  }

  predicate InRange(v: nat, a: (nat, nat)) {
    a.0 <= v <= a.1
  }

  /** The test is symmetric, and for ranges written low to high it holds exactly
      when some value lies in both. */
  lemma {:induction false} IntersectsMeaning(a: (nat, nat), b: (nat, nat))
    ensures Intersects(a, b) <==> Intersects(b, a)
    ensures a.0 <= a.1 && b.0 <= b.1 ==>
      (Intersects(a, b) <==> exists v :: InRange(v, a) && InRange(v, b))
  {
    if a.0 <= a.1 && b.0 <= b.1 && Intersects(a, b) {
      var v := if a.0 < b.0 then b.0 else a.0;
      assert InRange(v, a) && InRange(v, b);
    }
  }

  /** The footprints of two bricks, seen from above, overlap. */
  predicate Overlapping(b: Brick, o: Brick) {
    Intersects((b.from.x, b.to.x), (o.from.x, o.to.x))
    && Intersects((b.from.y, b.to.y), (o.from.y, o.to.y))
  }

  /** Two bricks share a cube. */
  predicate Collide(a: Brick, b: Brick) {
    Overlapping(a, b) && Intersects((a.from.z, a.to.z), (b.from.z, b.to.z))
  }

  predicate Disjoint(bricks: seq<Brick>) {
    forall i, j :: 0 <= i < j < |bricks| ==> !Collide(bricks[i], bricks[j])
  }

  /** Corners written low to high, above the ground. */
  predicate WellFormed(b: Brick) {
    b.from.x <= b.to.x && b.from.y <= b.to.y && 1 <= b.from.z <= b.to.z
  }

  // ---------------------------------------------------------------- falling

  /** `o`'s top is directly below level `z` and under `b`'s footprint. */
  predicate Under(o: Brick, b: Brick, z: nat) {
    o.to.z + 1 == z && Overlapping(b, o)
  }

  /** Some settled brick stops `b` from moving below level `z`. */
  function Blocked(settled: seq<Brick>, b: Brick, z: nat): (r: bool)
    ensures r <==> exists i :: 0 <= i < |settled| && Under(settled[i], b, z)
  {
    if settled == [] then false
    else if Under(settled[|settled| - 1], b, z) then true
    else
      var r := Blocked(settled[..|settled| - 1], b, z);
      assert forall i :: 0 <= i < |settled| - 1 ==> settled[..|settled| - 1][i] == settled[i];
      r
  }

  /** The level a brick whose bottom is at `z` comes to rest at: it moves down while
      it is above level 1 and nothing is directly under it. */
  function Descend(settled: seq<Brick>, b: Brick, z: nat): (r: nat)
    ensures r <= z && (z >= 1 ==> r >= 1)
    ensures r <= 1 || Blocked(settled, b, r)
    decreases z
  {
    if z <= 1 || Blocked(settled, b, z) then z else Descend(settled, b, z - 1)
  }

  /** A brick moves only through levels where nothing is directly under it. */
  lemma {:induction false} DescendPassesClear(settled: seq<Brick>, b: Brick, z: nat, w: nat)
    requires Descend(settled, b, z) < w <= z
    ensures !Blocked(settled, b, w)
    decreases z
  {
    if w < z {
      DescendPassesClear(settled, b, z - 1, w);
    }
  }

  /** `b` moved down so that its bottom is at `z`; None where `to.z - diff_z`
      underflows, which only a brick written upside down can reach. */
  function Settle(b: Brick, z: nat): (r: Option<Brick>)
    requires z <= b.from.z
    ensures r.Some? <==> b.from.z - z <= b.to.z
  {
    var diff := b.from.z - z;
    if diff > b.to.z then None
    else Some(Brick(b.id, Position(b.from.x, b.from.y, z), Position(b.to.x, b.to.y, b.to.z - diff)))
  }

  /** The bricks of `rest` falling one after another onto `settled`. */
  function FallFrom(settled: seq<Brick>, rest: seq<Brick>): (r: Option<seq<Brick>>)
    ensures r.Some? ==> |r.value| == |settled| + |rest| && r.value[..|settled|] == settled
    decreases |rest|
  {
    if rest == [] then Some(settled)
    else
      var b := rest[0];
      match Settle(b, Descend(settled, b, b.from.z))
      case None => None
      case Some(s) => FallFrom(settled + [s], rest[1..])
  }

  /** What `fall` returns. */
  function Fallen(bricks: seq<Brick>): (r: Option<seq<Brick>>)
    ensures r.Some? ==> |r.value| == |bricks|
  {
    FallFrom([], bricks)
  }

  /** `fall`: every brick in turn moves down to its resting level. */
  method Fall(bricks: seq<Brick>) returns (r: Option<seq<Brick>>)
    ensures r == Fallen(bricks)
  {
    var fallen: seq<Brick> := [];
    for i := 0 to |bricks|
      invariant FallFrom(fallen, bricks[i..]) == Fallen(bricks)
    {
      var brick := bricks[i];
      var z: nat := brick.from.z;
      while z > 1
        invariant z <= brick.from.z
        invariant Descend(fallen, brick, z) == Descend(fallen, brick, brick.from.z)
        decreases z
      {
        if Blocked(fallen, brick, z) {
          break;
        }
        z := z - 1;
      }
      var diff := brick.from.z - z;
      if diff > brick.to.z {
        return None;
      }
      fallen := fallen + [Brick(brick.id, Position(brick.from.x, brick.from.y, brick.from.z - diff),
                                Position(brick.to.x, brick.to.y, brick.to.z - diff))];
      assert bricks[i..][1..] == bricks[i + 1..];
    }
    assert bricks[|bricks|..] == [];
    r := Some(fallen);
  }

  /** Each brick of the result is `bricks[i]` settled at the level where it stops
      falling onto the bricks before it. */
  predicate FallenAt(bricks: seq<Brick>, r: seq<Brick>, i: nat)
    requires i < |bricks| && i < |r|
  {
    Settle(bricks[i], Descend(r[..i], bricks[i], bricks[i].from.z)) == Some(r[i])
  }

  lemma {:induction false} FallFromChar(done: seq<Brick>, settled: seq<Brick>, rest: seq<Brick>)
    requires |done| == |settled|
    requires forall i :: 0 <= i < |done| ==> i < |settled| && FallenAt(done, settled, i)
    requires FallFrom(settled, rest).Some?
    ensures var r := FallFrom(settled, rest).value;
      |r| == |done| + |rest| && r[..|settled|] == settled
      && forall i :: 0 <= i < |r| ==> FallenAt(done + rest, r, i)
    decreases |rest|
  {
    var all := done + rest;
    var r := FallFrom(settled, rest).value;
    if rest == [] {
      assert all == done;
      assert r == settled;
    } else {
      var b := rest[0];
      var s := Settle(b, Descend(settled, b, b.from.z)).value;
      var settled' := settled + [s];
      forall i | 0 <= i < |done + [b]| ensures i < |settled'| && FallenAt(done + [b], settled', i) {
        assert settled'[..i] == settled[..i] || i == |settled|;
        if i < |done| {
          assert settled'[..i] == settled[..i];
          assert FallenAt(done, settled, i);
        } else {
          assert settled'[..i] == settled;
        }
      }
      FallFromChar(done + [b], settled', rest[1..]);
      assert done + [b] + rest[1..] == all;
      assert r == FallFrom(settled', rest[1..]).value;
      assert r[..|settled|] == r[..|settled'|][..|settled|];
    }
  }

  /** `fall` keeps one brick per input, in order: brick `i` lands where falling onto
      the bricks `0..i` already settled stops it. */
  lemma {:induction false} FallenChar(bricks: seq<Brick>)
    requires Fallen(bricks).Some?
    ensures var r := Fallen(bricks).value;
      |r| == |bricks| && forall i :: 0 <= i < |r| ==> FallenAt(bricks, r, i)
  {
    FallFromChar([], [], bricks);
    assert [] + bricks == bricks;
  }

  /** A settled brick has the same id, the same x and y extent and the same height;
      its bottom never rises and stays at or above level 1. It rests on the ground
      or on a settled brick, and every level it passed on the way had nothing under
      it. */
  lemma {:induction false} FallenShape(bricks: seq<Brick>)
    requires Fallen(bricks).Some?
    ensures var r := Fallen(bricks).value;
      |r| == |bricks| && forall i :: 0 <= i < |r| ==>
        var b, s := bricks[i], r[i];
        s.id == b.id && s.from.x == b.from.x && s.to.x == b.to.x
        && s.from.y == b.from.y && s.to.y == b.to.y
        && s.to.z as int - s.from.z == b.to.z as int - b.from.z
        && s.from.z <= b.from.z && (b.from.z >= 1 ==> s.from.z >= 1)
        && (s.from.z <= 1 || exists j :: 0 <= j < i && Under(r[j], b, s.from.z))
        && forall w :: s.from.z < w <= b.from.z ==> !Blocked(r[..i], b, w)
  {
    FallenChar(bricks);
    var r := Fallen(bricks).value;
    forall i | 0 <= i < |r|
      ensures var b, s := bricks[i], r[i];
        s.id == b.id && s.from.x == b.from.x && s.to.x == b.to.x
        && s.from.y == b.from.y && s.to.y == b.to.y
        && s.to.z as int - s.from.z == b.to.z as int - b.from.z
        && s.from.z <= b.from.z && (b.from.z >= 1 ==> s.from.z >= 1)
        && (s.from.z <= 1 || exists j :: 0 <= j < i && Under(r[j], b, s.from.z))
        && forall w :: s.from.z < w <= b.from.z ==> !Blocked(r[..i], b, w)
    {
      var b := bricks[i];
      assert FallenAt(bricks, r, i);
      var z := Descend(r[..i], b, b.from.z);
      assert Settle(b, z) == Some(r[i]);
      assert r[i].from.z == z;
      forall w | z < w <= b.from.z ensures !Blocked(r[..i], b, w) {
        DescendPassesClear(r[..i], b, b.from.z, w);
      }
      if z > 1 {
        var j :| 0 <= j < |r[..i]| && Under(r[..i][j], b, z);
        assert r[..i][j] == r[j];
      }
    }
  }

  /** Upside-down bricks are the only way `fall` can fail. */
  lemma {:induction false} FallenWellFormed(bricks: seq<Brick>)
    requires forall i :: 0 <= i < |bricks| ==> bricks[i].from.z <= bricks[i].to.z
    ensures Fallen(bricks).Some?
  {
    FallFromSome([], bricks);
  }

  lemma {:induction false} FallFromSome(settled: seq<Brick>, rest: seq<Brick>)
    requires forall i :: 0 <= i < |rest| ==> rest[i].from.z <= rest[i].to.z
    ensures FallFrom(settled, rest).Some?
    decreases |rest|
  {
    if rest != [] {
      var b := rest[0];
      var s := Settle(b, Descend(settled, b, b.from.z)).value;
      FallFromSome(settled + [s], rest[1..]);
    }
  }

  // ---------------------------------------------------------------- no two bricks meet

  /** Sorted by the bottom level, as `part_one` does before falling. */
  predicate SortedByBottom(bricks: seq<Brick>) {
    forall i, j :: 0 <= i < j < |bricks| ==> bricks[i].from.z <= bricks[j].from.z
  }

  /** Where a well-formed brick stops, starting from a position clear of the
      settled bricks, it is still clear of them. */
  lemma {:induction false} DescendClear(settled: seq<Brick>, b: Brick, z: nat)
    requires WellFormed(b) && 1 <= z <= b.from.z
    requires forall i :: 0 <= i < |settled| ==> !Collide(settled[i], Settle(b, z).value)
    ensures forall i :: 0 <= i < |settled| ==> !Collide(settled[i], Settle(b, Descend(settled, b, z)).value)
    decreases z
  {
    if !(z <= 1 || Blocked(settled, b, z)) {
      forall i | 0 <= i < |settled| ensures !Collide(settled[i], Settle(b, z - 1).value) {
        var o := settled[i];
        if Collide(o, Settle(b, z - 1).value) {
          assert !Collide(o, Settle(b, z).value);
          assert Under(o, b, z);
        }
      }
      DescendClear(settled, b, z - 1);
    }
  }

  /** A brick settled below its place in a disjoint input, which was sorted by
      bottom, cannot meet a later brick at that later brick's own place. */
  lemma {:induction false} StartClear(before: Brick, after: Brick, b: Brick)
    requires WellFormed(before) && WellFormed(b)
    requires after.from.x == before.from.x && after.to.x == before.to.x
    requires after.from.y == before.from.y && after.to.y == before.to.y
    requires after.to.z as int - after.from.z == before.to.z as int - before.from.z
    requires after.from.z <= before.from.z <= b.from.z
    requires !Collide(before, b)
    ensures !Collide(after, Settle(b, b.from.z).value)
  {
  }

  /** The bricks of a disjoint input of well-formed bricks, sorted by bottom, still
      share no cube once they have fallen. */
  lemma {:induction false} FallenDisjoint(bricks: seq<Brick>)
    requires forall i :: 0 <= i < |bricks| ==> WellFormed(bricks[i])
    requires SortedByBottom(bricks) && Disjoint(bricks)
    ensures Fallen(bricks).Some? && Disjoint(Fallen(bricks).value)
  {
    FallenWellFormed(bricks);
    FallenShape(bricks);
    FallenChar(bricks);
    var r := Fallen(bricks).value;
    forall i, j | 0 <= i < j < |r| ensures !Collide(r[i], r[j]) {
      var b := bricks[j];
      forall k | 0 <= k < |r[..j]| ensures !Collide(r[..j][k], Settle(b, b.from.z).value) {
        assert r[..j][k] == r[k];
        StartClear(bricks[k], r[k], b);
      }
      DescendClear(r[..j], b, b.from.z);
      assert FallenAt(bricks, r, j);
      assert r[..j][i] == r[i];
    }
  }

  // ---------------------------------------------------------------- as written

  /** `find`: the first settled brick whose top is directly below level `z`. */
  function FirstBelow(settled: seq<Brick>, z: nat): (r: Option<nat>)
    ensures r.Some? ==> (r.value < |settled| && settled[r.value].to.z + 1 == z
      && forall j :: 0 <= j < r.value ==> settled[j].to.z + 1 != z)
    ensures r.None? ==> forall j :: 0 <= j < |settled| ==> settled[j].to.z + 1 != z
  {
    if settled == [] then None
    else if settled[0].to.z + 1 == z then Some(0)
    else match FirstBelow(settled[1..], z)
      case None => None
      case Some(k) => Some(k + 1)
  }

  /** The stopping test as written: only the first brick `find` returns is checked
      for an overlapping footprint. */
  function BlockedAsWritten(settled: seq<Brick>, b: Brick, z: nat): bool {
    match FirstBelow(settled, z)
    case None => false
    case Some(i) => Overlapping(b, settled[i])
  }

  function DescendAsWritten(settled: seq<Brick>, b: Brick, z: nat): (r: nat)
    ensures r <= z
    decreases z
  {
    if z <= 1 || BlockedAsWritten(settled, b, z) then z else DescendAsWritten(settled, b, z - 1)
  }

  function FallFromAsWritten(settled: seq<Brick>, rest: seq<Brick>): Option<seq<Brick>>
    decreases |rest|
  {
    if rest == [] then Some(settled)
    else
      var b := rest[0];
      match Settle(b, DescendAsWritten(settled, b, b.from.z))
      case None => None
      case Some(s) => FallFromAsWritten(settled + [s], rest[1..])
  }

  const CubeA := Brick(0, Position(0, 0, 1), Position(0, 0, 1))
  const CubeB := Brick(1, Position(5, 5, 1), Position(5, 5, 1))
  const CubeC := Brick(2, Position(5, 5, 3), Position(5, 5, 3))

  /** Three single cubes on the ground and above it, the third above the second. */
  lemma {:induction false} CubesValid()
    ensures var bricks := [CubeA, CubeB, CubeC];
      (forall i :: 0 <= i < |bricks| ==> WellFormed(bricks[i]))
      && SortedByBottom(bricks) && Disjoint(bricks)
  {
  }

  /** When the first settled brick at the level below is elsewhere, a brick falls
      straight through another one at that level. The first two cubes stay on the
      ground; the third then drops to the ground, inside the second. */
  lemma {:induction false} FallThroughAsWritten()
    ensures DescendAsWritten([], CubeA, 1) == 1 && DescendAsWritten([CubeA], CubeB, 1) == 1
    ensures DescendAsWritten([CubeA, CubeB], CubeC, 3) == 1
    ensures Collide(CubeB, Brick(2, Position(5, 5, 1), Position(5, 5, 1)))
  {
    assert FirstBelow([CubeA, CubeB], 3) == None;
    assert FirstBelow([CubeA, CubeB], 2) == Some(0);
  }

  /** Falling as intended, the third cube stops on the second and meets neither. */
  lemma {:induction false} FallOntoCorrected()
    ensures Descend([], CubeA, 1) == 1 && Descend([CubeA], CubeB, 1) == 1
    ensures Descend([CubeA, CubeB], CubeC, 3) == 2
    ensures Settle(CubeC, 1) == Some(Brick(2, Position(5, 5, 1), Position(5, 5, 1)))
    ensures Settle(CubeC, 2) == Some(Brick(2, Position(5, 5, 2), Position(5, 5, 2)))
    ensures !Collide(CubeA, Brick(2, Position(5, 5, 2), Position(5, 5, 2)))
    ensures !Collide(CubeB, Brick(2, Position(5, 5, 2), Position(5, 5, 2)))
  {
    assert Under([CubeA, CubeB][1], CubeC, 2);
    assert !Blocked([CubeA, CubeB], CubeC, 3);
  }

  // ---------------------------------------------------------------- sorting

  /** `sorted_by` on the bottom level, stable: insertion from the back. */
  function Insert(sorted: seq<Brick>, b: Brick): (r: seq<Brick>)
    ensures |r| == |sorted| + 1
    ensures multiset(r) == multiset(sorted) + multiset{b}
    ensures forall x :: x in r <==> x in sorted || x == b
  {
    if sorted == [] then [b]
    else
      var last := sorted[|sorted| - 1];
      var init := sorted[..|sorted| - 1];
      assert sorted == init + [last];
      if last.from.z > b.from.z then Insert(init, b) + [last] else sorted + [b]
  }

  function SortByBottom(bricks: seq<Brick>): (r: seq<Brick>)
    ensures multiset(r) == multiset(bricks)
    ensures forall x :: x in r <==> x in bricks
  {
    if bricks == [] then []
    else
      assert bricks == bricks[..|bricks| - 1] + [bricks[|bricks| - 1]];
      Insert(SortByBottom(bricks[..|bricks| - 1]), bricks[|bricks| - 1])
  }

  lemma {:induction false} InsertSorted(sorted: seq<Brick>, b: Brick)
    requires SortedByBottom(sorted)
    ensures SortedByBottom(Insert(sorted, b))
    decreases |sorted|
  {
    if sorted != [] {
      var last := sorted[|sorted| - 1];
      var init := sorted[..|sorted| - 1];
      if last.from.z > b.from.z {
        InsertSorted(init, b);
        var r := Insert(init, b);
        forall x | x in r ensures x.from.z <= last.from.z {
          if x != b {
            var k :| 0 <= k < |init| && init[k] == x;
            assert sorted[k] == x;
          }
        }
        forall i, j | 0 <= i < j < |r + [last]| ensures (r + [last])[i].from.z <= (r + [last])[j].from.z {
          if j == |r| {
            assert (r + [last])[i] in r;
          }
        }
      }
    }
  }

  lemma {:induction false} InsertDistinct(sorted: seq<Brick>, b: Brick)
    requires DistinctIds(sorted) && forall x :: x in sorted ==> x.id != b.id
    ensures DistinctIds(Insert(sorted, b))
    decreases |sorted|
  {
    if sorted != [] {
      var last := sorted[|sorted| - 1];
      var init := sorted[..|sorted| - 1];
      if last.from.z > b.from.z {
        assert forall x :: x in init ==> x in sorted;
        InsertDistinct(init, b);
        var r := Insert(init, b);
        forall x | x in r ensures x.id != last.id {
          if x != b {
            var k :| 0 <= k < |init| && init[k] == x;
            assert sorted[k] == x;
          }
        }
        forall i, j | 0 <= i < j < |r + [last]| ensures (r + [last])[i].id != (r + [last])[j].id {
          if j == |r| {
            assert (r + [last])[i] in r;
          }
        }
      } else {
        forall i, j | 0 <= i < j < |sorted + [b]| ensures (sorted + [b])[i].id != (sorted + [b])[j].id {
          if j == |sorted| {
            assert (sorted + [b])[i] in sorted;
          }
        }
      }
    }
  }

  /** The sort orders by bottom level, keeps every brick, and keeps ids distinct. */
  lemma {:induction false} SortByBottomSpec(bricks: seq<Brick>)
    ensures SortedByBottom(SortByBottom(bricks))
    ensures multiset(SortByBottom(bricks)) == multiset(bricks)
    ensures DistinctIds(bricks) ==> DistinctIds(SortByBottom(bricks))
    decreases |bricks|
  {
    if bricks != [] {
      var init := bricks[..|bricks| - 1];
      var b := bricks[|bricks| - 1];
      SortByBottomSpec(init);
      InsertSorted(SortByBottom(init), b);
      if DistinctIds(bricks) {
        assert DistinctIds(init);
        forall x | x in SortByBottom(init) ensures x.id != b.id {
          var k :| 0 <= k < |init| && init[k] == x;
          assert bricks[k] == x;
        }
        InsertDistinct(SortByBottom(init), b);
      }
    }
  }

  // ---------------------------------------------------------------- supports

  /** `o` rests on `b`: its bottom is one above `b`'s top, over `b`'s footprint. */
  predicate RestsOn(o: Brick, b: Brick) {
    o.from.z == b.to.z + 1 && Overlapping(b, o)
  }

  /** The bricks resting on `b`, in order (the two `filter`s). */
  function Supported(fallen: seq<Brick>, b: Brick): (r: seq<Brick>)
    ensures forall o :: o in r <==> o in fallen && RestsOn(o, b)
  {
    if fallen == [] then []
    else (if RestsOn(fallen[0], b) then [fallen[0]] else []) + Supported(fallen[1..], b)
  }

  /** `structure`: every brick with the bricks resting on it. */
  function Structure(fallen: seq<Brick>): (r: seq<(Brick, seq<Brick>)>)
    ensures |r| == |fallen|
    ensures forall i :: 0 <= i < |r| ==> r[i] == (fallen[i], Supported(fallen, fallen[i]))
  {
    seq(|fallen|, i requires 0 <= i < |fallen| => (fallen[i], Supported(fallen, fallen[i])))
  }

  /** The test of `part_one`: nothing rests on the brick, or everything resting on
      it appears in the list of some brick with another id. */
  predicate Removable(structure: seq<(Brick, seq<Brick>)>, me: Brick, supports: seq<Brick>) {
    supports == []
    || forall s :: s in supports ==>
         exists k :: 0 <= k < |structure| && structure[k].0.id != me.id && s in structure[k].1
  }

  /** The bricks from index `from` on that pass the test: at most all of them, and all
      of them exactly when each passes. */
  function CountRemovable(structure: seq<(Brick, seq<Brick>)>, from: nat): (r: nat)
    requires from <= |structure|
    ensures r <= |structure| - from
    ensures r == |structure| - from <==>
      forall k :: from <= k < |structure| ==> Removable(structure, structure[k].0, structure[k].1)
    decreases |structure| - from
  {
    if from == |structure| then 0
    else (if Removable(structure, structure[from].0, structure[from].1) then 1 else 0)
         + CountRemovable(structure, from + 1)
  }

  /** Every brick resting on brick `i` also rests on some other brick. */
  predicate SharedSupports(fallen: seq<Brick>, i: nat)
    requires i < |fallen|
  {
    forall j :: 0 <= j < |fallen| && RestsOn(fallen[j], fallen[i]) ==>
      exists k :: 0 <= k < |fallen| && k != i && RestsOn(fallen[j], fallen[k])
  }

  /** With distinct ids, the test holds for brick `i` exactly when every brick
      resting on it also rests on another brick. */
  lemma {:induction false} RemovableMeaning(fallen: seq<Brick>, i: nat)
    requires DistinctIds(fallen) && i < |fallen|
    ensures var st := Structure(fallen);
      Removable(st, st[i].0, st[i].1) <==> SharedSupports(fallen, i)
  {
    var st := Structure(fallen);
    if Removable(st, st[i].0, st[i].1) {
      RemovableShared(fallen, i);
    }
    if SharedSupports(fallen, i) {
      SharedRemovable(fallen, i);
    }
  }

  lemma {:induction false} RemovableShared(fallen: seq<Brick>, i: nat)
    requires i < |fallen|
    requires var st := Structure(fallen); Removable(st, st[i].0, st[i].1)
    ensures SharedSupports(fallen, i)
  {
    var st := Structure(fallen);
    var me := fallen[i];
    forall j | 0 <= j < |fallen| && RestsOn(fallen[j], me)
      ensures exists k :: 0 <= k < |fallen| && k != i && RestsOn(fallen[j], fallen[k])
    {
      assert fallen[j] in st[i].1;
      var k :| 0 <= k < |st| && st[k].0.id != me.id && fallen[j] in st[k].1;
      assert k != i && RestsOn(fallen[j], fallen[k]);
    }
  }

  lemma {:induction false} SharedRemovable(fallen: seq<Brick>, i: nat)
    requires DistinctIds(fallen) && i < |fallen| && SharedSupports(fallen, i)
    ensures var st := Structure(fallen); Removable(st, st[i].0, st[i].1)
  {
    var st := Structure(fallen);
    var me := fallen[i];
    forall o | o in st[i].1
      ensures exists k :: 0 <= k < |st| && st[k].0.id != me.id && o in st[k].1
    {
      var j :| 0 <= j < |fallen| && fallen[j] == o;
      assert RestsOn(fallen[j], me);
      var k :| 0 <= k < |fallen| && k != i && RestsOn(fallen[j], fallen[k]);
      assert fallen[k].id != me.id;
      assert o in st[k].1;
    }
  }

  // ---------------------------------------------------------------- part one

  /** The bricks of the input, one per line, sorted by bottom level. */
  function Bricks(input: string): (r: Option<seq<Brick>>)
    ensures r.Some? <==> ParseBricks(Lines(input), 0).Some?
    ensures r.Some? ==> multiset(r.value) == multiset(ParseBricks(Lines(input), 0).value)
    ensures r.Some? ==> SortedByBottom(r.value)
  {
    match ParseBricks(Lines(input), 0)
    case None => None
    case Some(bricks) =>
      SortByBottomSpec(bricks);
      Some(SortByBottom(bricks))
  }

  /** The parsed bricks are numbered by line, so their ids are distinct. */
  lemma {:induction false} BricksDistinct(input: string)
    requires Bricks(input).Some?
    ensures DistinctIds(Bricks(input).value) && SortedByBottom(Bricks(input).value)
  {
    var bricks := ParseBricks(Lines(input), 0).value;
    SortByBottomSpec(bricks);
  }

  /** Settling keeps the ids, so they stay distinct. */
  lemma {:induction false} FallenDistinct(bricks: seq<Brick>)
    requires DistinctIds(bricks) && Fallen(bricks).Some?
    ensures DistinctIds(Fallen(bricks).value)
  {
    FallenShape(bricks);
  }

  /** `part_one`: the number of bricks that pass the test once all have fallen. */
  method PartOne(input: string) returns (r: Option<nat>)
    ensures r.Some? <==> Bricks(input).Some? && Fallen(Bricks(input).value).Some?
    ensures r.Some? ==> r.value == CountRemovable(Structure(Fallen(Bricks(input).value).value), 0)
  {
    var bricks := Bricks(input);
    if bricks.None? {
      return None;
    }
    var fallen := Fall(bricks.value);
    if fallen.None? {
      return None;
    }
    r := Some(CountRemovable(Structure(fallen.value), 0));
  }
}
