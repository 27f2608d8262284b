/** Day 16: the floor will be lava. A beam enters the contraption at the top-left
    corner heading right; mirrors turn it and splitters split it, and the answer is the
    number of tiles it energizes. */
module Day16Lava {
  import opened Prelude

  datatype Tile = Empty | RMirror | LMirror | VSplitter | HSplitter

  datatype Direction = Up | Down | Left | Right

  /** `Tile::from`; any other character makes the program panic. */
  function TileOf(c: char): (r: Option<Tile>)
    ensures r.Some? <==> c in {'.', '/', '\\', '|', '-'}
  {
    match c
    case '.' => Some(Empty)
    case '/' => Some(RMirror)
    case '\\' => Some(LMirror)
    case '|' => Some(VSplitter)
    case '-' => Some(HSplitter)
    case _ => None
  }

  function Reverse(d: Direction): (r: Direction)
    ensures r != d
  {
    match d
    case Up => Down
    case Down => Up
    case Left => Right
    case Right => Left
  }

  predicate Vertical(d: Direction) {
    d == Up || d == Down
  }

  /** `Tile::get_new_directions`. */
  function NewDirections(t: Tile, d: Direction): seq<Direction> {
    match t
    case Empty => [d]
    case RMirror => [match d case Up => Right case Down => Left case Left => Down case Right => Up]
    case LMirror => [match d case Up => Left case Down => Right case Left => Up case Right => Down]
    case VSplitter => if Vertical(d) then [d] else [Up, Down]
    case HSplitter => if !Vertical(d) then [d] else [Left, Right]
  }

  /** Empty tiles pass the beam on, mirrors turn it by a right angle, and a splitter
      passes a parallel beam and splits a perpendicular one into both directions
      across it; so there are always one or two directions, and never the way back. */
  lemma {:induction false} NewDirectionsSpec(t: Tile, d: Direction)
    ensures 1 <= |NewDirections(t, d)| <= 2
    ensures t == Empty ==> NewDirections(t, d) == [d]
    ensures t in {RMirror, LMirror} ==> |NewDirections(t, d)| == 1 && Vertical(NewDirections(t, d)[0]) != Vertical(d)
    ensures t in {VSplitter, HSplitter} && Vertical(d) == (t == VSplitter) ==> NewDirections(t, d) == [d]
    ensures t == VSplitter && !Vertical(d) ==> NewDirections(t, d) == [Up, Down]
    ensures t == HSplitter && Vertical(d) ==> NewDirections(t, d) == [Left, Right]
    ensures Reverse(d) !in NewDirections(t, d)
  {
  }

  /** Light paths are reversible through a mirror: arriving from where the beam left
      sends it back where it came from. */
  lemma {:induction false} MirrorReversible(t: Tile, d: Direction)
    requires t in {RMirror, LMirror}
    ensures NewDirections(t, Reverse(NewDirections(t, d)[0])) == [Reverse(d)]
  {
  }

  datatype Position = Position(x: nat, y: nat)

  /** `Map`: the tiles by row, and the bounds the moves respect. */
  datatype Map = Map(grid: seq<seq<Tile>>, width: int, height: int)

  /** `Position::move_direction`: one cell in the direction, or none at the edge the
      bound names. */
  function MoveDirection(p: Position, d: Direction, m: Map): (r: Option<Position>)
    ensures r.None? <==>
      (d == Up && p.y == 0) || (d == Down && p.y == m.height - 1) ||
      (d == Left && p.x == 0) || (d == Right && p.x == m.width - 1)
    ensures r.Some? && Vertical(d) ==> r.value.x == p.x && r.value.y == p.y + (if d == Up then -1 else 1)
    ensures r.Some? && !Vertical(d) ==> r.value.y == p.y && r.value.x == p.x + (if d == Left then -1 else 1)
  {
    match d
    case Up => if p.y == 0 then None else Some(Position(p.x, p.y - 1))
    case Down => if p.y == m.height - 1 then None else Some(Position(p.x, p.y + 1))
    case Left => if p.x == 0 then None else Some(Position(p.x - 1, p.y))
    case Right => if p.x == m.width - 1 then None else Some(Position(p.x + 1, p.y))
  }

  datatype Ball = Ball(pos: Position, dir: Direction)

  type Entry = (Position, Direction)

  /** The balls leaving `p` in the listed directions whose (position, direction) pair
      the history has not seen. */
  function Successors(m: Map, p: Position, dirs: seq<Direction>, history: seq<Entry>): seq<Ball> {
    if dirs == [] then []
    else
      var here := match MoveDirection(p, dirs[0], m)
        case None => []
        case Some(q) => if (q, dirs[0]) in history then [] else [Ball(q, dirs[0])];
      here + Successors(m, p, dirs[1..], history)
  }

  /** `advance` drops exactly the successors whose pair the history has seen. */
  lemma {:induction false} SuccessorsSpec(m: Map, p: Position, dirs: seq<Direction>, history: seq<Entry>)
    ensures forall b :: b in Successors(m, p, dirs, history) <==>
      b.dir in dirs && MoveDirection(p, b.dir, m) == Some(b.pos) && (b.pos, b.dir) !in history
  {
    if dirs != [] {
      SuccessorsSpec(m, p, dirs[1..], history);
      assert forall d :: d in dirs <==> d == dirs[0] || d in dirs[1..];
    }
  }

  predicate InGrid(m: Map, p: Position) {
    p.y < |m.grid| && p.x < |m.grid[p.y]|
  }

  /** `Ball::advance`; the tile lookup panics for a ball outside the grid. */
  function Advance(m: Map, b: Ball, history: seq<Entry>): Option<seq<Ball>> {
    if !InGrid(m, b.pos) then None
    else Some(Successors(m, b.pos, NewDirections(m.grid[b.pos.y][b.pos.x], b.dir), history))
  }

  /** The `flat_map` of `advance` over the current balls, all against the same history. */
  function AdvanceAll(m: Map, balls: seq<Ball>, history: seq<Entry>): Option<seq<Ball>> {
    if balls == [] then Some([])
    else match (Advance(m, balls[0], history), AdvanceAll(m, balls[1..], history))
      case (Some(a), Some(rest)) => Some(a + rest)
      case _ => None
  }

  /** No ball of a round repeats a (position, direction) pair of the history. */
  lemma {:induction false} AdvanceAllFresh(m: Map, balls: seq<Ball>, history: seq<Entry>)
    ensures AdvanceAll(m, balls, history).Some? ==>
      forall b :: b in AdvanceAll(m, balls, history).value ==> (b.pos, b.dir) !in history
  {
    if balls != [] {
      AdvanceAllFresh(m, balls[1..], history);
      var b := balls[0];
      if InGrid(m, b.pos) {
        SuccessorsSpec(m, b.pos, NewDirections(m.grid[b.pos.y][b.pos.x], b.dir), history);
      }
    }
  }

  // ---------------------------------------------------------------- the history

  function PositionSet(h: seq<Entry>): set<Position> {
    set e | e in h :: e.0
  }

  ghost predicate DistinctPositions(h: seq<Entry>) {
    forall i, j :: 0 <= i < j < |h| ==> h[i].0 != h[j].0
  }

  /** The `for_each` after each round: a ball is recorded only when its position is new. */
  function Record(h: seq<Entry>, balls: seq<Ball>): seq<Entry>
    decreases |balls|
  {
    if balls == [] then h
    else Record(if balls[0].pos in PositionSet(h) then h else h + [(balls[0].pos, balls[0].dir)], balls[1..])
  }

  lemma {:induction false} PositionSetSnoc(h: seq<Entry>, e: Entry)
    ensures PositionSet(h + [e]) == PositionSet(h) + {e.0}
  {
    assert forall x :: x in h + [e] <==> x in h || x == e;
  }

  /** Recording keeps the history's positions distinct, adds exactly the new balls'
      positions and only ever appends. */
  lemma {:induction false} RecordSpec(h: seq<Entry>, balls: seq<Ball>)
    requires DistinctPositions(h)
    ensures DistinctPositions(Record(h, balls))
    ensures PositionSet(Record(h, balls)) == PositionSet(h) + set b | b in balls :: b.pos
    decreases |balls|
  {
    if balls != [] {
      var b := balls[0];
      var h' := if b.pos in PositionSet(h) then h else h + [(b.pos, b.dir)];
      if b.pos !in PositionSet(h) {
        PositionSetSnoc(h, (b.pos, b.dir));
        forall i, j | 0 <= i < j < |h'|
          ensures h'[i].0 != h'[j].0
        {
          if j == |h| {
            assert h[i] in h;
          }
        }
      }
      RecordSpec(h', balls[1..]);
      assert forall c :: c in balls <==> c == b || c in balls[1..];
    }
  }

  /** Distinct positions: the history's length is the number of energized tiles. */
  lemma {:induction false} DistinctCount(h: seq<Entry>)
    requires DistinctPositions(h)
    ensures |PositionSet(h)| == |h|
  {
    if h != [] {
      var init := h[..|h| - 1];
      assert h == init + [h[|h| - 1]];
      DistinctCount(init);
      PositionSetSnoc(init, h[|h| - 1]);
      assert h[|h| - 1].0 !in PositionSet(init) by {
        forall e | e in init
          ensures e.0 != h[|h| - 1].0
        {
          var i :| 0 <= i < |init| && init[i] == e;
        }
      }
    }
  }

  // ---------------------------------------------------------------- the beam loop

  datatype Run = Stopped(history: seq<Entry>) | Crash | Running

  /** The loop of `part_one`, with at most `fuel` rounds: advance every ball, record
      the results, and stop after a round with no balls. */
  function RunFrom(m: Map, balls: seq<Ball>, history: seq<Entry>, fuel: nat): Run
    decreases fuel
  {
    if fuel == 0 then Running
    else match AdvanceAll(m, balls, history)
      case None => Crash
      case Some(results) =>
        var h := Record(history, results);
        if results == [] then Stopped(h) else RunFrom(m, results, h, fuel - 1)
  }

  lemma {:induction false} RunFromStep(m: Map, balls: seq<Ball>, history: seq<Entry>, fuel: nat)
    requires fuel > 0
    ensures AdvanceAll(m, balls, history).None? ==> RunFrom(m, balls, history, fuel) == Crash
    ensures AdvanceAll(m, balls, history) == Some([]) ==> RunFrom(m, balls, history, fuel) == Stopped(Record(history, []))
    ensures AdvanceAll(m, balls, history).Some? && AdvanceAll(m, balls, history).value != [] ==>
      var results := AdvanceAll(m, balls, history).value;
      RunFrom(m, balls, history, fuel) == RunFrom(m, results, Record(history, results), fuel - 1)
  {
  }

  function Start(): Ball {
    Ball(Position(0, 0), Right)
  }

  function Beam(m: Map, fuel: nat): Run {
    RunFrom(m, [Start()], [(Start().pos, Start().dir)], fuel)
  }

  /** A finished run's history lists distinct tiles, starting with the corner, so its
      length is the number of energized tiles. */
  lemma {:induction false} RunFromSpec(m: Map, balls: seq<Ball>, history: seq<Entry>, fuel: nat)
    requires DistinctPositions(history)
    ensures RunFrom(m, balls, history, fuel).Stopped? ==>
      var h := RunFrom(m, balls, history, fuel).history;
      DistinctPositions(h) && history <= h && |PositionSet(h)| == |h|
  {
    RunFromDistinct(m, balls, history, fuel);
    RunFromPrefix(m, balls, history, fuel);
    if RunFrom(m, balls, history, fuel).Stopped? {
      DistinctCount(RunFrom(m, balls, history, fuel).history);
    }
  }

  lemma {:induction false} RunFromDistinct(m: Map, balls: seq<Ball>, history: seq<Entry>, fuel: nat)
    requires DistinctPositions(history)
    ensures RunFrom(m, balls, history, fuel).Stopped? ==> DistinctPositions(RunFrom(m, balls, history, fuel).history)
    decreases fuel
  {
    if fuel > 0 {
      RunFromStep(m, balls, history, fuel);
      var next := AdvanceAll(m, balls, history);
      if next.Some? {
        RecordDistinct(history, next.value);
        if next.value != [] {
          RunFromDistinct(m, next.value, Record(history, next.value), fuel - 1);
        }
      }
    }
  }

  lemma {:induction false} RecordDistinct(h: seq<Entry>, balls: seq<Ball>)
    requires DistinctPositions(h)
    ensures DistinctPositions(Record(h, balls))
  {
    RecordSpec(h, balls);
  }

  lemma {:induction false} RecordPrefix(h: seq<Entry>, balls: seq<Ball>)
    ensures h <= Record(h, balls)
    decreases |balls|
  {
    if balls != [] {
      var h' := if balls[0].pos in PositionSet(h) then h else h + [(balls[0].pos, balls[0].dir)];
      RecordPrefix(h', balls[1..]);
      PrefixTrans(h, h', Record(h', balls[1..]));
    }
  }

  lemma {:induction false} RunFromPrefix(m: Map, balls: seq<Ball>, history: seq<Entry>, fuel: nat)
    ensures RunFrom(m, balls, history, fuel).Stopped? ==> history <= RunFrom(m, balls, history, fuel).history
    decreases fuel
  {
    if fuel > 0 {
      RunFromStep(m, balls, history, fuel);
      var next := AdvanceAll(m, balls, history);
      if next.Some? {
        RecordPrefix(history, next.value);
        var h := Record(history, next.value);
        if next.value != [] {
          RunFromPrefix(m, next.value, h, fuel - 1);
          if RunFrom(m, next.value, h, fuel - 1).Stopped? {
            PrefixTrans(history, h, RunFrom(m, next.value, h, fuel - 1).history);
          }
        }
      }
    }
  }

  lemma {:induction false} PrefixTrans<T>(a: seq<T>, b: seq<T>, c: seq<T>)
    requires a <= b && b <= c
    ensures a <= c
  {
    assert c[..|a|] == b[..|a|];
  }

  lemma {:induction false} BeamSpec(m: Map, fuel: nat)
    ensures Beam(m, fuel).Stopped? ==>
      var h := Beam(m, fuel).history;
      |h| >= 1 && h[0] == (Position(0, 0), Right) && |PositionSet(h)| == |h| && DistinctPositions(h)
  {
    RunFromSpec(m, [Start()], [(Start().pos, Start().dir)], fuel);
  }

  /** Every row has `width` tiles and there are `height` rows. */
  predicate Fits(m: Map) {
    m.height == |m.grid| && forall r :: 0 <= r < |m.grid| ==> |m.grid[r]| == m.width
  }

  lemma {:induction false} SuccessorsInGrid(m: Map, p: Position, dirs: seq<Direction>, history: seq<Entry>)
    requires Fits(m) && InGrid(m, p)
    ensures forall b :: b in Successors(m, p, dirs, history) ==> InGrid(m, b.pos)
  {
    SuccessorsSpec(m, p, dirs, history);
  }

  lemma {:induction false} AdvanceAllInGrid(m: Map, balls: seq<Ball>, history: seq<Entry>)
    requires Fits(m) && forall b :: b in balls ==> InGrid(m, b.pos)
    ensures AdvanceAll(m, balls, history).Some?
    ensures forall b :: b in AdvanceAll(m, balls, history).value ==> InGrid(m, b.pos)
  {
    if balls != [] {
      SuccessorsInGrid(m, balls[0].pos, NewDirections(m.grid[balls[0].pos.y][balls[0].pos.x], balls[0].dir), history);
      AdvanceAllInGrid(m, balls[1..], history);
    }
  }

  /** When the bounds match the grid, the beam never leaves it: the run cannot crash. */
  lemma {:induction false} RunFromNeverCrashes(m: Map, balls: seq<Ball>, history: seq<Entry>, fuel: nat)
    requires Fits(m) && forall b :: b in balls ==> InGrid(m, b.pos)
    ensures !RunFrom(m, balls, history, fuel).Crash?
    decreases fuel
  {
    if fuel > 0 {
      AdvanceAllInGrid(m, balls, history);
      var results := AdvanceAll(m, balls, history).value;
      if results != [] {
        RunFromNeverCrashes(m, results, Record(history, results), fuel - 1);
      }
    }
  }

  // ---------------------------------------------------------------- parsing

  function ParseRow(line: string): (r: Option<seq<Tile>>)
    ensures r.Some? ==> |r.value| == |line|
  {
    if line == [] then Some([])
    else match (TileOf(line[0]), ParseRow(line[1..]))
      case (Some(t), Some(rest)) => Some([t] + rest)
      case _ => None
  }

  function ParseRows(lines: seq<string>): (r: Option<seq<seq<Tile>>>)
    ensures r.Some? ==> |r.value| == |lines|
    ensures r.Some? ==> forall i :: 0 <= i < |lines| ==> ParseRow(lines[i]) == Some(r.value[i])
  {
    if lines == [] then Some([])
    else match (ParseRow(lines[0]), ParseRows(lines[1..]))
      case (Some(row), Some(rest)) => Some([row] + rest)
      case _ => None
  }

  /** `Map::from_str` as written: the number of lines becomes the width and the length
      of the first line the height. */
  function ParseMapAsWritten(input: string): Option<Map> {
    var lines := Lines(input);
    if lines == [] then None
    else match ParseRows(lines)
      case None => None
      case Some(grid) => Some(Map(grid, |lines|, |lines[0]|))
  }

  /** `Map::from_str` with the bounds the other way round: the first line's length is
      the width and the number of lines the height. */
  function ParseMap(input: string): (r: Option<Map>)
    ensures r.Some? ==> |Lines(input)| > 0 && r.value.width == |Lines(input)[0]| && r.value.height == |Lines(input)|
  {
    var lines := Lines(input);
    if lines == [] then None
    else match ParseRows(lines)
      case None => None
      case Some(grid) => Some(Map(grid, |lines[0]|, |lines|))
  }

  /** On a platform of one row and two tiles, the bounds as written stop the beam
      heading right at the first tile, although a second one exists. */
  lemma {:induction false} SwappedBoundsStopEarly()
    ensures ParseMapAsWritten("..") == Some(Map([[Empty, Empty]], 1, 2))
    ensures MoveDirection(Position(0, 0), Right, ParseMapAsWritten("..").value).None?
    ensures ParseMap("..") == Some(Map([[Empty, Empty]], 2, 1))
    ensures MoveDirection(Position(0, 0), Right, ParseMap("..").value) == Some(Position(1, 0))
  {
    SplitCharAbsent("..", '\n');
    assert Lines("..") == [".."];
    assert ParseRow("") == Some([]);
    assert ParseRow(".") == Some([Empty]) by {
      var s := ".";
      assert s[1..] == "";
      assert ParseRow(s[1..]) == Some([]);
      assert TileOf(s[0]) == Some(Empty);
      assert [Empty] + [] == [Empty];
    }
    assert ParseRow("..") == Some([Empty, Empty]) by {
      var s := "..";
      assert s[1..] == ".";
      assert ParseRow(s[1..]) == Some([Empty]);
      assert TileOf(s[0]) == Some(Empty);
      assert [Empty] + [Empty] == [Empty, Empty];
    }
    assert ParseRows([".."]) == Some([[Empty, Empty]]) by {
      var ls := [".."];
      assert ls[1..] == [];
      assert ParseRows(ls[1..]) == Some([]);
      assert ParseRow(ls[0]) == Some([Empty, Empty]);
      assert [[Empty, Empty]] + [] == [[Empty, Empty]];
    }
  }

  /** With the corrected bounds, a rectangular platform never makes the beam crash. */
  lemma {:induction false} ParsedRectangularNeverCrashes(input: string, fuel: nat)
    requires ParseMap(input).Some?
    requires forall i :: 0 <= i < |Lines(input)| ==> |Lines(input)[i]| == |Lines(input)[0]|
    requires |Lines(input)[0]| > 0
    ensures !Beam(ParseMap(input).value, fuel).Crash?
  {
    var m := ParseMap(input).value;
    RunFromNeverCrashes(m, [Start()], [(Start().pos, Start().dir)], fuel);
  }

  // ---------------------------------------------------------------- part one

  method RecordAll(history: seq<Entry>, results: seq<Ball>) returns (h: seq<Entry>)
    ensures h == Record(history, results)
  {
    h := history;
    for i := 0 to |results|
      invariant Record(h, results[i..]) == Record(history, results)
    {
      assert results[i..][1..] == results[i + 1..];
      if !(results[i].pos in PositionSet(h)) {
        h := h + [(results[i].pos, results[i].dir)];
      }
    }
    assert results[|results|..] == [];
  }

  datatype Outcome = Energized(count: nat) | Panic | Unfinished

  /** The `loop` of `part_one`, cut off after `fuel` rounds. */
  method BeamLoop(m: Map, fuel: nat) returns (run: Run)
    ensures run == Beam(m, fuel)
  {
    var balls := [Start()];
    var history := [(Start().pos, Start().dir)];
    var rounds := fuel;
    while rounds > 0
      invariant RunFrom(m, balls, history, rounds) == Beam(m, fuel)
    {
      var results := AdvanceAll(m, balls, history);
      RunFromStep(m, balls, history, rounds);
      if results.None? {
        return Crash;
      }
      history := RecordAll(history, results.value);
      if results.value == [] {
        return Stopped(history);
      }
      balls := results.value;
      rounds := rounds - 1;
    }
    return Running;
  }

  /** `part_one`: the number of energized tiles, when the beam settles within `fuel`
      rounds. */
  method PartOne(input: string, fuel: nat) returns (r: Outcome)
    ensures ParseMap(input).None? ==> r == Panic
    ensures ParseMap(input).Some? && Beam(ParseMap(input).value, fuel).Stopped? ==>
      r == Energized(|Beam(ParseMap(input).value, fuel).history|)
    ensures ParseMap(input).Some? && Beam(ParseMap(input).value, fuel).Crash? ==> r == Panic
    ensures ParseMap(input).Some? && Beam(ParseMap(input).value, fuel).Running? ==> r == Unfinished
  {
    var parsed := ParseMap(input);
    if parsed.None? {
      return Panic;
    }
    var run := BeamLoop(parsed.value, fuel);
    match run
    case Stopped(h) => return Energized(|h|);
    case Crash => return Panic;
    case Running => return Unfinished;
  }
}
