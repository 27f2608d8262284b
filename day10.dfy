/** Day 10: the pipe maze. The loop through the start tile is walked pipe by pipe, and
    the tiles it encloses are counted row by row by crossing parity. */
module Day10PipeMaze {
  import opened Prelude

  datatype Direction = North | East | South | West

  /** `Direction::inverse`. */
  function Inverse(d: Direction): (r: Direction)
    ensures r != d
  {
    match d
    case North => South
    case East => West
    case South => North
    case West => East
  }

  lemma {:induction false} InverseInvolution(d: Direction)
    ensures Inverse(Inverse(d)) == d
  {
  }

  datatype Tile = Ground | Start | Connection(a: Direction, b: Direction)

  /** `Tile::from`: the six pipes, ground and the start; other characters panic. */
  function TileOf(c: char): (r: Option<Tile>)
    ensures r.Some? && r.value.Connection? ==> r.value.a != r.value.b
  {
    match c
    case '|' => Some(Connection(North, South))
    case '-' => Some(Connection(East, West))
    case 'L' => Some(Connection(North, East))
    case 'J' => Some(Connection(North, West))
    case '7' => Some(Connection(South, West))
    case 'F' => Some(Connection(South, East))
    case '.' => Some(Ground)
    case 'S' => Some(Start)
    case _ => None
  }

  /** Every pair of distinct directions is joined by exactly one pipe character. */
  lemma {:induction false} PipeForEveryPair(x: Direction, y: Direction) returns (c: char)
    requires x != y
    ensures TileOf(c) == Some(Connection(x, y)) || TileOf(c) == Some(Connection(y, x))
  {
    match (x, y)
    case (North, South) => c := '|'; case (South, North) => c := '|';
    case (East, West) => c := '-'; case (West, East) => c := '-';
    case (North, East) => c := 'L'; case (East, North) => c := 'L';
    case (North, West) => c := 'J'; case (West, North) => c := 'J';
    case (South, West) => c := '7'; case (West, South) => c := '7';
    case (South, East) => c := 'F'; case (East, South) => c := 'F';
  }

  type Grid = seq<seq<Tile>>
  type Pos = (nat, nat)

  predicate InGrid(grid: Grid, x: int, y: int) {
    0 <= x < |grid| && 0 <= y < |grid[x]|
  }

  function TileAt(grid: Grid, p: Pos): Tile
    requires InGrid(grid, p.0, p.1)
  {
    grid[p.0][p.1]
  }

  /** The cell one step from `p` heading `d` (rows grow southwards, columns eastwards),
      if it is on the map. */
  function Neighbour(grid: Grid, p: Pos, d: Direction): (r: Option<Pos>)
    ensures r.Some? ==> InGrid(grid, r.value.0, r.value.1)
  {
    var (x, y) := match d
      case North => (p.0 - 1, p.1 as int)
      case East => (p.0 as int, p.1 + 1)
      case South => (p.0 + 1, p.1 as int)
      case West => (p.0 as int, p.1 - 1);
    if InGrid(grid, x, y) then Some((x, y)) else None
  }

  /** What heading `d` into tile `t` gives: the pipe's other end if it has an end facing
      back along `inverse(d)`, the start marker at the start tile, or nothing. */
  function Enter(t: Tile, d: Direction): Option<Option<Direction>> {
    match t
    case Connection(a, b) =>
      if a == Inverse(d) then Some(Some(b))
      else if b == Inverse(d) then Some(Some(a))
      else None
    case Start => Some(None)
    case Ground => None
  }

  /** The outcome of one `find_conn`. */
  datatype Probe = Panic | Blocked | Pipe(pos: Pos, exit: Option<Direction>)

  /** `find_conn` as written: a neighbour off the map is an index out of range (or a
      `usize` underflow), which panics. */
  function FindConnAsWritten(grid: Grid, p: Pos, d: Direction): Probe {
    match Neighbour(grid, p, d)
    case None => Panic
    case Some(q) =>
      match Enter(TileAt(grid, q), d)
      case None => Blocked
      case Some(e) => Pipe(q, e)
  }

  /** `find_conn` with a neighbour off the map treated as no connection. */
  function FindConn(grid: Grid, p: Pos, d: Direction): Probe {
    match Neighbour(grid, p, d)
    case None => Blocked
    case Some(q) =>
      match Enter(TileAt(grid, q), d)
      case None => Blocked
      case Some(e) => Pipe(q, e)
  }

  /** A tile links back to a walker heading `d` and sends it on towards `e`. */
  predicate LinksBack(t: Tile, d: Direction, e: Direction) {
    t == Connection(Inverse(d), e) || t == Connection(e, Inverse(d))
  }

  /** `find_conn` continues exactly through a neighbouring pipe with an end facing back,
      to that pipe's other end; it stops exactly at a neighbouring start tile. */
  lemma {:induction false} FindConnSpec(grid: Grid, p: Pos, d: Direction, q: Pos, e: Direction)
    ensures FindConn(grid, p, d) == Pipe(q, Some(e)) <==>
      Neighbour(grid, p, d) == Some(q) && LinksBack(TileAt(grid, q), d, e)
    ensures FindConn(grid, p, d) == Pipe(q, None) <==>
      Neighbour(grid, p, d) == Some(q) && TileAt(grid, q) == Start
  {
  }

  /** The two versions agree whenever the neighbour is on the map. */
  lemma {:induction false} FindConnAgrees(grid: Grid, p: Pos, d: Direction)
    requires Neighbour(grid, p, d).Some?
    ensures FindConnAsWritten(grid, p, d) == FindConn(grid, p, d)
  {
  }

  // ---------------------------------------------------------------- the start

  predicate StartAt(grid: Grid, x: nat, y: nat) {
    InGrid(grid, x, y) && grid[x][y] == Start
  }

  /** (x, y) comes before (x', y') in row-major order. */
  predicate Before(x: nat, y: nat, x': nat, y': nat) {
    x < x' || (x == x' && y < y')
  }

  function FindStartInRow(row: seq<Tile>, y: nat): (r: Option<nat>)
    requires y <= |row|
    ensures r.Some? ==> y <= r.value < |row| && row[r.value] == Start
    ensures r.Some? ==> forall k :: y <= k < r.value ==> row[k] != Start
    ensures r.None? ==> forall k :: y <= k < |row| ==> row[k] != Start
    decreases |row| - y
  {
    if y == |row| then None else if row[y] == Start then Some(y) else FindStartInRow(row, y + 1)
  }

  /** `find_start`: the first start tile in row-major order. */
  function FindStart(grid: Grid, x: nat): (r: Option<Pos>)
    requires x <= |grid|
    ensures r.Some? ==> x <= r.value.0 && StartAt(grid, r.value.0, r.value.1)
    ensures r.Some? ==> forall i, j :: x <= i < |grid| && 0 <= j < |grid[i]| && Before(i, j, r.value.0, r.value.1) ==> grid[i][j] != Start
    ensures r.None? ==> forall i, j :: x <= i < |grid| && 0 <= j < |grid[i]| ==> grid[i][j] != Start
    decreases |grid| - x
  {
    if x == |grid| then None
    else match FindStartInRow(grid[x], 0)
      case Some(y) => Some((x, y))
      case None => FindStart(grid, x + 1)
  }

  // ---------------------------------------------------------------- the first connection

  /** The first pipe of the loop: where it is, the direction taken from the start to it,
      and the direction in which it is left. */
  datatype First = Fail | Found(pos: Pos, from: Direction, exit: Direction)

  function Directions(): seq<Direction> {
    [North, East, South, West]
  }

  /** `find_first_conn` as written: the directions in order; a probe that panics aborts
      the search, and finding nothing panics too (`Fail`). */
  function FirstConnAsWritten(grid: Grid, s: Pos, k: nat): First
    requires k <= 4
    decreases 4 - k
  {
    if k == 4 then Fail
    else match FindConnAsWritten(grid, s, Directions()[k])
      case Panic => Fail
      case Pipe(q, Some(e)) => Found(q, Directions()[k], e)
      case _ => FirstConnAsWritten(grid, s, k + 1)
  }

  /** `find_first_conn`, with probes off the map skipped. */
  function FirstConn(grid: Grid, s: Pos, k: nat): (r: First)
    requires k <= 4
    ensures r.Found? ==> exists i :: k <= i < 4 && Directions()[i] == r.from
    ensures r.Found? ==> FindConn(grid, s, r.from) == Pipe(r.pos, Some(r.exit))
    decreases 4 - k
  {
    if k == 4 then Fail
    else match FindConn(grid, s, Directions()[k])
      case Pipe(q, Some(e)) => Found(q, Directions()[k], e)
      case _ => FirstConn(grid, s, k + 1)
  }

  predicate Continues(grid: Grid, s: Pos, d: Direction) {
    FindConn(grid, s, d).Pipe? && FindConn(grid, s, d).exit.Some?
  }

  /** The first direction, in the order North, East, South, West, whose neighbour links
      back is the one taken; the search fails only when none does. */
  lemma {:induction false} FirstConnIsFirst(grid: Grid, s: Pos, k: nat) returns (i: nat)
    requires k <= 4
    ensures FirstConn(grid, s, k).Fail? <==> forall i :: k <= i < 4 ==> !Continues(grid, s, Directions()[i])
    ensures FirstConn(grid, s, k).Found? ==>
      k <= i < 4 && Directions()[i] == FirstConn(grid, s, k).from &&
      forall j :: k <= j < i ==> !Continues(grid, s, Directions()[j])
    decreases 4 - k
  {
    if k == 4 {
      i := 4;
    } else {
      FirstConnStep(grid, s, k);
      if Continues(grid, s, Directions()[k]) {
        i := k;
      } else {
        i := FirstConnIsFirst(grid, s, k + 1);
      }
    }
  }

  /** One probe of `find_first_conn`: taken if it continues, skipped otherwise. */
  lemma {:induction false} FirstConnStep(grid: Grid, s: Pos, k: nat)
    requires k < 4
    ensures Continues(grid, s, Directions()[k]) ==>
      FirstConn(grid, s, k).Found? && FirstConn(grid, s, k).from == Directions()[k]
    ensures !Continues(grid, s, Directions()[k]) ==> FirstConn(grid, s, k) == FirstConn(grid, s, k + 1)
  {
  }

  // ---------------------------------------------------------------- the walk

  /** A walked pipe: its position, the direction it was entered from (`inverse` of the
      heading) and the direction it is left. */
  type Step = (Pos, (Direction, Direction))

  /** The pipes after the one at `p` left heading `d`, up to the return to the start;
      None if the walk hits a dead end (`expect` panics) or exceeds `fuel` pipes. */
  function WalkFrom(grid: Grid, p: Pos, d: Direction, fuel: nat): Option<seq<Step>>
    decreases fuel
  {
    match FindConn(grid, p, d)
    case Pipe(q, None) => Some([])
    case Pipe(q, Some(e)) =>
      if fuel == 0 then None
      else
        (match WalkFrom(grid, q, e, fuel - 1)
         case None => None
         case Some(rest) => Some([(q, (Inverse(d), e))] + rest))
    case _ => None
  }

  /** Each walked pipe is reached from the previous one, is entered from the side facing
      it, and the last one leads into the start tile. */
  lemma {:induction false} WalkLinked(grid: Grid, p: Pos, d: Direction, fuel: nat)
    requires WalkFrom(grid, p, d, fuel).Some?
    ensures (var w := WalkFrom(grid, p, d, fuel).value;
             |w| <= fuel &&
             (w == [] ==> FindConn(grid, p, d).Pipe? && TileAt(grid, FindConn(grid, p, d).pos) == Start) &&
             (w != [] ==> FindConn(grid, p, d) == Pipe(w[0].0, Some(w[0].1.1)) && w[0].1.0 == Inverse(d)) &&
             forall i :: 0 <= i < |w| - 1 ==>
               FindConn(grid, w[i].0, w[i].1.1) == Pipe(w[i + 1].0, Some(w[i + 1].1.1)) &&
               w[i + 1].1.0 == Inverse(w[i].1.1))
    ensures (var w := WalkFrom(grid, p, d, fuel).value;
             w != [] ==>
               FindConn(grid, w[|w| - 1].0, w[|w| - 1].1.1).Pipe? &&
               TileAt(grid, FindConn(grid, w[|w| - 1].0, w[|w| - 1].1.1).pos) == Start)
    decreases fuel
  {
    var w := WalkFrom(grid, p, d, fuel).value;
    match FindConn(grid, p, d)
    case Pipe(q, None) =>
      FindConnSpec(grid, p, d, q, d);
    case Pipe(q, Some(e)) =>
      WalkLinked(grid, q, e, fuel - 1);
      var rest := WalkFrom(grid, q, e, fuel - 1).value;
      assert w == [(q, (Inverse(d), e))] + rest;
      forall i | 1 <= i < |w| - 1
        ensures FindConn(grid, w[i].0, w[i].1.1) == Pipe(w[i + 1].0, Some(w[i + 1].1.1))
        ensures w[i + 1].1.0 == Inverse(w[i].1.1)
      {
        assert w[i] == rest[i - 1] && w[i + 1] == rest[i];
      }
      if rest != [] {
        assert w[1] == rest[0];
        assert w[|w| - 1] == rest[|rest| - 1];
      } else {
        FindConnSpec(grid, q, e, FindConn(grid, q, e).pos, e);
      }
  }

  function Prefixed(prefix: seq<Step>, rest: Option<seq<Step>>): Option<seq<Step>> {
    match rest
    case None => None
    case Some(r) => Some(prefix + r)
  }

  /** The `loop` of `part_one` / `part_two`: push each connection until the start is
      reached again. The program loops for ever on a chain that neither ends nor closes;
      here `fuel` bounds the number of pipes. */
  method Walk(grid: Grid, first: Step, fuel: nat) returns (conns: Option<seq<Step>>)
    ensures conns == Prefixed([first], WalkFrom(grid, first.0, first.1.1, fuel))
  {
    var path := [first];
    var left := fuel;
    while true
      invariant |path| >= 1
      invariant Prefixed([first], WalkFrom(grid, first.0, first.1.1, fuel)) ==
        Prefixed(path, WalkFrom(grid, path[|path| - 1].0, path[|path| - 1].1.1, left))
      decreases left
    {
      var curr := path[|path| - 1];
      var next := FindConn(grid, curr.0, curr.1.1);
      match next {
        case Pipe(q, None) =>
          assert path + [] == path;
          return Some(path);
        case Pipe(q, Some(e)) =>
          if left == 0 {
            return None;
          }
          AppendAssoc(path, (q, (Inverse(curr.1.1), e)), WalkFrom(grid, q, e, left - 1));
          path := path + [(q, (Inverse(curr.1.1), e))];
          left := left - 1;
        case _ =>
          return None;
      }
    }
  }

  lemma {:induction false} AppendAssoc(path: seq<Step>, s: Step, rest: Option<seq<Step>>)
    ensures Prefixed(path, Prefixed([s], rest)) == Prefixed(path + [s], rest)
  {
    if rest.Some? {
      assert path + ([s] + rest.value) == (path + [s]) + rest.value;
    }
  }

  // ---------------------------------------------------------------- the two parts

  function ParseRow(line: string): (r: Option<seq<Tile>>)
    ensures r.Some? ==> |r.value| == |line|
  {
    if line == [] then Some([])
    else match (TileOf(line[0]), ParseRow(line[1..]))
      case (Some(t), Some(ts)) => Some([t] + ts)
      case _ => None
  }

  function ParseGrid(lines: seq<string>): (r: Option<Grid>)
    ensures r.Some? ==> |r.value| == |lines|
  {
    if lines == [] then Some([])
    else match (ParseRow(lines[0]), ParseGrid(lines[1..]))
      case (Some(row), Some(rows)) => Some([row] + rows)
      case _ => None
  }

  /** The whole loop through the start: the walked pipes, then the start tile with the
      direction it is entered from and the direction of the first pipe. */
  function LoopOf(grid: Grid, s: Pos, fuel: nat): Option<seq<Step>> {
    match FirstConn(grid, s, 0)
    case Fail => None
    case Found(q, d, e) =>
      match Prefixed([(q, (Inverse(d), e))], WalkFrom(grid, q, e, fuel))
      case None => None
      case Some(conns) =>
        var last := conns[|conns| - 1];
        Some(conns + [(s, (Inverse(last.1.1), d))])
  }

  /** The farthest point of a loop of n pipes (start excluded): `div_ceil(n, 2)`. */
  function Farthest(n: nat): (r: nat)
    ensures 2 * r >= n && 2 * r <= n + 1
  {
    (n + 1) / 2
  }

  /** The walk of `part_one` on a parsed map: half the loop, rounded up. */
  method FarthestOnLoop(grid: Grid, fuel: nat) returns (r: Option<nat>)
    ensures r.Some? ==> (exists s :: FindStart(grid, 0) == Some(s) && LoopOf(grid, s, fuel).Some? &&
                          r.value == Farthest(|LoopOf(grid, s, fuel).value| - 1))
    ensures r.None? ==> FindStart(grid, 0).None? || LoopOf(grid, FindStart(grid, 0).value, fuel).None?
  {
    var s := FindStart(grid, 0);
    if s.None? {
      return None;
    }
    var first := FirstConn(grid, s.value, 0);
    if first.Fail? {
      return None;
    }
    var conns := Walk(grid, (first.pos, (Inverse(first.from), first.exit)), fuel);
    if conns.None? {
      return None;
    }
    r := Some(Farthest(|conns.value|));
  }

  // ---------------------------------------------------------------- enclosed tiles

  /** `conns.iter().find(..)`: the ends of the first loop entry at `p`. */
  function LoopAt(conns: seq<Step>, p: Pos): (r: Option<(Direction, Direction)>)
    ensures r.None? <==> forall i :: 0 <= i < |conns| ==> conns[i].0 != p
  {
    if conns == [] then None
    else if conns[0].0 == p then Some(conns[0].1)
    else
      assert forall i :: 1 <= i < |conns| ==> conns[i] == conns[1..][i - 1];
      LoopAt(conns[1..], p)
  }

  /** A loop tile with an end pointing South crosses the scanline. */
  predicate Crossing(conns: seq<Step>, p: Pos) {
    var ends := LoopAt(conns, p);
    ends.Some? && (ends.value.0 == South || ends.value.1 == South)
  }

  /** The number of crossings in row `x` left of column `y`. */
  function CrossingsBefore(conns: seq<Step>, x: nat, y: nat): nat {
    if y == 0 then 0 else CrossingsBefore(conns, x, y - 1) + (if Crossing(conns, (x, y - 1)) then 1 else 0)
  }

  /** A tile is enclosed when it is off the loop and an odd number of crossings lies to
      its left. */
  predicate Enclosed(conns: seq<Step>, x: nat, y: nat) {
    LoopAt(conns, (x, y)).None? && CrossingsBefore(conns, x, y) % 2 == 1
  }

  function EnclosedInRow(conns: seq<Step>, x: nat, y: nat): nat {
    if y == 0 then 0 else EnclosedInRow(conns, x, y - 1) + (if Enclosed(conns, x, y - 1) then 1 else 0)
  }

  function EnclosedInRows(grid: Grid, conns: seq<Step>, x: nat): nat
    requires x <= |grid|
  {
    if x == 0 then 0 else EnclosedInRows(grid, conns, x - 1) + EnclosedInRow(conns, x - 1, |grid[x - 1]|)
  }

  /** The scan of `part_two`: `inside` toggles at each crossing and `count` grows at each
      tile off the loop while inside. */
  method CountEnclosed(grid: Grid, conns: seq<Step>) returns (count: nat)
    ensures count == EnclosedInRows(grid, conns, |grid|)
  {
    count := 0;
    for x := 0 to |grid|
      invariant count == EnclosedInRows(grid, conns, x)
    {
      var inside := false;
      var rowCount := 0;
      for y := 0 to |grid[x]|
        invariant inside <==> CrossingsBefore(conns, x, y) % 2 == 1
        invariant rowCount == EnclosedInRow(conns, x, y)
      {
        var ends := LoopAt(conns, (x, y));
        if ends.Some? {
          if ends.value.0 == South || ends.value.1 == South {
            inside := !inside;
          }
        } else if inside {
          rowCount := rowCount + 1;
        }
      }
      count := count + rowCount;
    }
  }

  /** Loop tiles are never counted, so a row holds at most its tiles off the loop. */
  lemma {:induction false} EnclosedAtMostOffLoop(conns: seq<Step>, x: nat, y: nat)
    ensures EnclosedInRow(conns, x, y) <= OffLoop(conns, x, y)
  {
    if y > 0 {
      EnclosedAtMostOffLoop(conns, x, y - 1);
    }
  }

  function OffLoop(conns: seq<Step>, x: nat, y: nat): nat {
    if y == 0 then 0 else OffLoop(conns, x, y - 1) + (if LoopAt(conns, (x, y - 1)).None? then 1 else 0)
  }

  /** A row that the loop never crosses encloses nothing. */
  lemma {:induction false} NoCrossingNothingEnclosed(conns: seq<Step>, x: nat, y: nat)
    requires forall k :: 0 <= k < y ==> !Crossing(conns, (x, k))
    ensures CrossingsBefore(conns, x, y) == 0 && EnclosedInRow(conns, x, y) == 0
  {
    if y > 0 {
      NoCrossingNothingEnclosed(conns, x, y - 1);
    }
  }

  /** The walk and scan of `part_two` on a parsed map: the tiles enclosed by the loop. */
  method EnclosedByLoop(grid: Grid, fuel: nat) returns (r: Option<nat>)
    ensures r.Some? ==> (exists s :: FindStart(grid, 0) == Some(s) && LoopOf(grid, s, fuel).Some? &&
                          r.value == EnclosedInRows(grid, LoopOf(grid, s, fuel).value, |grid|))
    ensures r.None? ==> FindStart(grid, 0).None? || LoopOf(grid, FindStart(grid, 0).value, fuel).None?
  {
    var s := FindStart(grid, 0);
    if s.None? {
      return None;
    }
    var first := FirstConn(grid, s.value, 0);
    if first.Fail? {
      return None;
    }
    var conns := Walk(grid, (first.pos, (Inverse(first.from), first.exit)), fuel);
    if conns.None? {
      return None;
    }
    var path := conns.value;
    var closed := path + [(s.value, (Inverse(path[|path| - 1].1.1), first.from))];
    var count := CountEnclosed(grid, closed);
    r := Some(count);
  }

  /** `part_one`: a character that is no tile panics, as does a map without a start or
      a loop. */
  method PartOne(input: string, fuel: nat) returns (r: Option<nat>)
    ensures ParseGrid(Lines(input)).None? ==> r.None?
    ensures ParseGrid(Lines(input)).Some? ==> var grid := ParseGrid(Lines(input)).value;
      (r.Some? ==> exists s :: FindStart(grid, 0) == Some(s) && LoopOf(grid, s, fuel).Some? &&
                    r.value == Farthest(|LoopOf(grid, s, fuel).value| - 1)) &&
      (r.None? ==> FindStart(grid, 0).None? || LoopOf(grid, FindStart(grid, 0).value, fuel).None?)
  {
    var grid := ParseGrid(Lines(input));
    if grid.None? {
      return None;
    }
    r := FarthestOnLoop(grid.value, fuel);
  }

  /** `part_two`: the tiles enclosed by the loop of the parsed map. */
  method PartTwo(input: string, fuel: nat) returns (r: Option<nat>)
    ensures ParseGrid(Lines(input)).None? ==> r.None?
    ensures ParseGrid(Lines(input)).Some? ==> var grid := ParseGrid(Lines(input)).value;
      (r.Some? ==> exists s :: FindStart(grid, 0) == Some(s) && LoopOf(grid, s, fuel).Some? &&
                    r.value == EnclosedInRows(grid, LoopOf(grid, s, fuel).value, |grid|)) &&
      (r.None? ==> FindStart(grid, 0).None? || LoopOf(grid, FindStart(grid, 0).value, fuel).None?)
  {
    var grid := ParseGrid(Lines(input));
    if grid.None? {
      return None;
    }
    r := EnclosedByLoop(grid.value, fuel);
  }

  // ---------------------------------------------------------------- the start on the top row

  /** A square loop whose start is the top-left corner. */
  function CornerStart(): Grid {
    [[Start, Connection(East, West), Connection(South, West)],
     [Connection(North, South), Ground, Connection(North, South)],
     [Connection(North, East), Connection(East, West), Connection(North, West)]]
  }

  /** As written, the first probe heads North from the top row and panics, although the
      start has two connecting pipes. */
  lemma {:induction false} CornerStartAsWritten()
    ensures FindStart(CornerStart(), 0) == Some((0, 0))
    ensures FirstConnAsWritten(CornerStart(), (0, 0), 0).Fail?
    ensures Continues(CornerStart(), (0, 0), East) && Continues(CornerStart(), (0, 0), South)
  {
    var g := CornerStart();
    assert FindStartInRow(g[0], 0) == Some(0);
    assert Neighbour(g, (0, 0), North).None?;
    assert Neighbour(g, (0, 0), East) == Some((0, 1));
    assert Neighbour(g, (0, 0), South) == Some((1, 0));
  }

  /** With probes off the map skipped, the loop is found and walked: eight tiles, the
      farthest four steps away. */
  lemma {:induction false} CornerStartCorrected()
    ensures FirstConn(CornerStart(), (0, 0), 0) == Found((0, 1), East, East)
    ensures LoopOf(CornerStart(), (0, 0), 10).Some?
    ensures |LoopOf(CornerStart(), (0, 0), 10).value| == 8
  {
    var g := CornerStart();
    assert Neighbour(g, (0, 0), North).None?;
    assert FindConn(g, (0, 0), North) == Blocked;
    assert Neighbour(g, (0, 0), East) == Some((0, 1));
    assert FindConn(g, (0, 0), East) == Pipe((0, 1), Some(East));
    assert FirstConn(g, (0, 0), 1) == Found((0, 1), East, East);
    CornerWalk();
  }

  /** The walk of the corrected corner example: six pipes after the first one. */
  lemma {:induction false} CornerWalk()
    ensures WalkFrom(CornerStart(), (0, 1), East, 10).Some?
    ensures |WalkFrom(CornerStart(), (0, 1), East, 10).value| == 6
  {
    var g := CornerStart();
    assert FindConn(g, (0, 1), East) == Pipe((0, 2), Some(South));
    assert Neighbour(g, (0, 2), South) == Some((1, 2));
    assert FindConn(g, (0, 2), South) == Pipe((1, 2), Some(South));
    assert Neighbour(g, (1, 2), South) == Some((2, 2));
    assert FindConn(g, (1, 2), South) == Pipe((2, 2), Some(West));
    assert Neighbour(g, (2, 2), West) == Some((2, 1));
    assert FindConn(g, (2, 2), West) == Pipe((2, 1), Some(West));
    assert Neighbour(g, (2, 1), West) == Some((2, 0));
    assert FindConn(g, (2, 1), West) == Pipe((2, 0), Some(North));
    assert Neighbour(g, (2, 0), North) == Some((1, 0));
    assert FindConn(g, (2, 0), North) == Pipe((1, 0), Some(North));
    assert Neighbour(g, (1, 0), North) == Some((0, 0));
    assert FindConn(g, (1, 0), North) == Pipe((0, 0), None);
    assert |WalkFrom(g, (0, 1), East, 10).value| == 6 by {
      assert |WalkFrom(g, (0, 2), South, 9).value| == 5 by {
        assert |WalkFrom(g, (1, 2), South, 8).value| == 4 by {
          assert |WalkFrom(g, (2, 2), West, 7).value| == 3 by {
            assert |WalkFrom(g, (2, 1), West, 6).value| == 2 by {
              assert |WalkFrom(g, (2, 0), North, 5).value| == 1 by {
                assert |WalkFrom(g, (1, 0), North, 4).value| == 0;
              }
            }
          }
        }
      }
    }
  }
}
