/** Day 21: counting the garden plots an elf can stand on after a number of steps on
    a garden that repeats forever in every direction, and extrapolating that count
    for a very large number of steps. */
module Day21Steps {
  import opened Prelude
  import Day09Oasis

  // ---------------------------------------------------------------- tiles and moves

  datatype Tile = Start | Plot | Rock

  /** `Tile::from`: None for the "unknown tile" panic. */
  function TileOf(c: char): (r: Option<Tile>)
    ensures r.Some? <==> c in {'S', '.', '#'}
    ensures r == Some(Start) <==> c == 'S'
    ensures r == Some(Rock) <==> c == '#'
  {
    match c
    case 'S' => Some(Start)
    case '.' => Some(Plot)
    case '#' => Some(Rock)
    case _ => None
  }

  datatype Direction = Up | Down | Left | Right

  /** The order `Direction::iter()` visits the directions in. */
  const Directions: seq<Direction> := [Up, Down, Left, Right]

  datatype Position = Position(x: int, y: int)

  function Opposite(d: Direction): Direction {
    match d
    case Up => Down
    case Down => Up
    case Left => Right
    case Right => Left
  }

  /** `move_direction`: one step; exactly one coordinate changes, by exactly one. */
  function Move(p: Position, d: Direction): (r: Position)
    ensures (r.x == p.x && (r.y == p.y - 1 || r.y == p.y + 1))
         || (r.y == p.y && (r.x == p.x - 1 || r.x == p.x + 1))
  {
    match d
    case Up => Position(p.x, p.y - 1)
    case Down => Position(p.x, p.y + 1)
    case Left => Position(p.x - 1, p.y)
    case Right => Position(p.x + 1, p.y)
  }

  /** A step is undone by the step in the opposite direction, and different
      directions lead to different positions. */
  lemma {:induction false} MoveOpposite(p: Position, d: Direction, e: Direction)
    ensures Move(Move(p, d), Opposite(d)) == p
    ensures Move(p, d) == Move(p, e) <==> d == e
  {
  }

  // ---------------------------------------------------------------- wrapping

  function Abs(x: int): nat {
    if x < 0 then -x else x
  }

  /** Rust's `%` on `isize`: the remainder truncated toward zero, with the sign of
      the dividend. */
  function Rem(x: int, m: int): (r: int)
    requires m != 0
    ensures r != 0 ==> (r < 0 <==> x < 0)
  {
    if x < 0 then -(Abs(x) % Abs(m)) else x % Abs(m)
  }

  /** `my_mod`: `(x % m + m) % m` with Rust's remainder. */
  function MyMod(x: int, m: int): int
    requires m != 0
  {
    Rem(Rem(x, m) + m, m)
  }

  lemma {:induction false} MulAtLeast(a: nat, k: int)
    requires k >= 1
    ensures a * k >= a
  {
    Distrib(a, 1, k - 1);
  }

  /** A quotient and a remainder in range are Euclidean division's. */
  lemma {:induction false} ModUnique(x: int, m: int, q: int, r: int)
    requires m > 0 && 0 <= r < m && x == m * q + r
    ensures x % m == r && x / m == q
  {
    var q0, r0 := x / m, x % m;
    assert x == m * q0 + r0;
    if q > q0 {
      Distrib(m, q0, q - q0);
      MulAtLeast(m, q - q0);
    } else if q < q0 {
      Distrib(m, q, q0 - q);
      MulAtLeast(m, q0 - q);
    }
  }

  /** For a positive modulus `my_mod` is the Euclidean remainder: it lies in
      `[0, m)` and differs from `x` by a multiple of `m`. */
  lemma {:induction false} MyModIsEuclidean(x: int, m: int)
    requires m > 0
    ensures MyMod(x, m) == x % m
    ensures 0 <= MyMod(x, m) < m
    ensures x == m * (x / m) + MyMod(x, m)
  {
    if x >= 0 {
      MyModNonNegative(x, m);
    } else {
      MyModNegative(x, m);
    }
  }

  lemma {:induction false} MyModNonNegative(x: int, m: int)
    requires m > 0 && x >= 0
    ensures MyMod(x, m) == x % m
  {
    var r := x % m;
    assert Rem(x, m) == r;
    ModUnique(r + m, m, 1, r);
    assert Rem(r + m, m) == r;
  }

  lemma {:induction false} MyModNegative(x: int, m: int)
    requires m > 0 && x < 0
    ensures MyMod(x, m) == x % m
  {
    var a := (-x) % m;
    var q := (-x) / m;
    assert -x == m * q + a;
    assert Rem(x, m) == -a;
    if a == 0 {
      ModUnique(m, m, 1, 0);
      assert MyMod(x, m) == 0;
      Distrib(m, -q, 0);
      ModUnique(x, m, -q, 0);
    } else {
      MyModNegativeRem(x, m, q, a);
    }
  }

  lemma {:induction false} MyModNegativeRem(x: int, m: int, q: int, a: int)
    requires m > 0 && x < 0 && 0 < a < m && -x == m * q + a
    ensures Rem(Rem(x, m) + m, m) == x % m
  {
    assert Abs(x) == -x && Abs(m) == m;
    ModUnique(-x, m, q, a);
    assert Rem(x, m) == -a;
    ModUnique(m - a, m, 0, m - a);
    assert Rem(m - a, m) == m - a;
    var q' := -q - 1;
    assert x == m * q' + (m - a) by {
      Distrib(m, q', 1);
      Negate(m, q);
    }
    ModUnique(x, m, q', m - a);
  }

  lemma {:induction false} Negate(m: int, q: int)
    ensures m * (-q - 1 + 1) == -(m * q)
  {
  }

  // ---------------------------------------------------------------- the garden

  datatype Map = Map(grid: seq<seq<Tile>>, width: nat, height: nat, start: Position)

  function ParseRow(line: string): (r: Option<seq<Tile>>)
    ensures r.Some? <==> forall i :: 0 <= i < |line| ==> TileOf(line[i]).Some?
    ensures r.Some? ==> (|r.value| == |line|
      && forall i :: 0 <= i < |line| ==> TileOf(line[i]) == Some(r.value[i]))
  {
    if line == [] then Some([])
    else match (TileOf(line[0]), ParseRow(line[1..]))
      case (Some(t), Some(rest)) => Some([t] + rest)
      case _ => None
  }

  function ParseGrid(lines: seq<string>): (r: Option<seq<seq<Tile>>>)
    ensures r.Some? <==> forall y :: 0 <= y < |lines| ==> ParseRow(lines[y]).Some?
    ensures r.Some? ==> (|r.value| == |lines|
      && forall y :: 0 <= y < |lines| ==> ParseRow(lines[y]) == Some(r.value[y]))
  {
    if lines == [] then Some([])
    else match (ParseRow(lines[0]), ParseGrid(lines[1..]))
      case (Some(row), Some(rest)) => Some([row] + rest)
      case _ => None
  }

  /** The last Start in a row. */
  function LastInRow(row: seq<Tile>): (r: Option<nat>)
    ensures r.Some? ==> (r.value < |row| && row[r.value] == Start
      && forall x :: r.value < x < |row| ==> row[x] != Start)
    ensures r.None? ==> forall x :: 0 <= x < |row| ==> row[x] != Start
  {
    if row == [] then None
    else if row[|row| - 1] == Start then Some(|row| - 1)
    else LastInRow(row[..|row| - 1])
  }

  /** The last Start in row-major order: the start position `from_str` ends up with,
      since every Start it meets overwrites the one before. */
  function LastStart(grid: seq<seq<Tile>>): (r: Option<Position>)
    ensures r.Some? ==> var p := r.value;
      0 <= p.y < |grid| && 0 <= p.x < |grid[p.y]| && grid[p.y][p.x] == Start
      && (forall x :: p.x < x < |grid[p.y]| ==> grid[p.y][x] != Start)
      && (forall y, x :: p.y < y < |grid| && 0 <= x < |grid[y]| ==> grid[y][x] != Start)
    ensures r.None? ==> forall y, x :: 0 <= y < |grid| && 0 <= x < |grid[y]| ==> grid[y][x] != Start
  {
    if grid == [] then None
    else match LastInRow(grid[|grid| - 1])
      case Some(x) => Some(Position(x, |grid| - 1))
      case None =>
        var r := LastStart(grid[..|grid| - 1]);
        assert forall y :: 0 <= y < |grid| - 1 ==> grid[..|grid| - 1][y] == grid[y];
        r
  }

  /** `Map::from_str`: None when the input has no line (the `unwrap` of the first
      line) or holds an unknown tile. The start defaults to the origin. */
  function ParseMap(input: string): (r: Option<Map>)
    ensures r.Some? <==> |Lines(input)| > 0 && ParseGrid(Lines(input)).Some?
    ensures r.Some? ==> var lines := Lines(input);
      r.value.grid == ParseGrid(lines).value
      && r.value.width == |lines[0]| && r.value.height == |lines|
      && r.value.start == match LastStart(r.value.grid)
                          case Some(p) => p
                          case None => Position(0, 0)
  {
    var lines := Lines(input);
    if lines == [] then None
    else match ParseGrid(lines)
      case None => None
      case Some(grid) =>
        var start := match LastStart(grid) case Some(p) => p case None => Position(0, 0);
        Some(Map(grid, |lines[0]|, |lines|, start))
  }

  // ---------------------------------------------------------------- neighbours

  /** The tile under a position, with both coordinates wrapped by `my_mod`. None
      where the source panics: a zero width or height (remainder by zero) or a
      wrapped column past the end of a short row. */
  function Lookup(garden: Map, q: Position): (r: Option<Tile>)
    ensures r.Some? ==> garden.width > 0 && garden.height > 0
  {
    if garden.width == 0 || garden.height == 0 then None
    else
      var y := MyMod(q.y, garden.height);
      var x := MyMod(q.x, garden.width);
      if 0 <= y < |garden.grid| && 0 <= x < |garden.grid[y]| then Some(garden.grid[y][x]) else None
  }

  /** On a parsed garden a lookup succeeds exactly when the wrapped row is long enough:
      the wrapped row index always exists. */
  lemma {:induction false} LookupOnParsedMap(input: string, q: Position)
    requires ParseMap(input).Some?
    ensures var garden := ParseMap(input).value;
      garden.width > 0 ==>
        (Lookup(garden, q).Some? <==> MyMod(q.x, garden.width) < |garden.grid[MyMod(q.y, garden.height)]|)
  {
    var garden := ParseMap(input).value;
    if garden.width > 0 {
      MyModIsEuclidean(q.y, garden.height);
      MyModIsEuclidean(q.x, garden.width);
    }
  }

  /** What the stepping rules see of a garden: the tile under every position, or
      None where looking it up panics. */
  type Tiles = Position -> Option<Tile>

  function TilesOf(garden: Map): Tiles {
    q => Lookup(garden, q)
  }

  /** A position the elf may step onto. */
  predicate Open(tiles: Tiles, q: Position) {
    tiles(q).Some? && tiles(q).value != Rock
  }

  /** The neighbours kept among the moves in `ds`, in order. */
  function NewFrom(tiles: Tiles, p: Position, ds: seq<Direction>): Option<seq<Position>>
  {
    if ds == [] then Some([])
    else
      var q := Move(p, ds[0]);
      match (tiles(q), NewFrom(tiles, p, ds[1..]))
      case (Some(t), Some(rest)) => Some(if t != Rock then [q] + rest else rest)
      case _ => None
  }

  /** `get_new_pos`. */
  function NewPositions(tiles: Tiles, p: Position): Option<seq<Position>> {
    NewFrom(tiles, p, Directions)
  }

  lemma {:induction false} NewFromSpec(tiles: Tiles, p: Position, ds: seq<Direction>)
    ensures NewFrom(tiles, p, ds).Some? <==> forall i :: 0 <= i < |ds| ==> tiles(Move(p, ds[i])).Some?
    ensures NewFrom(tiles, p, ds).Some? ==> var r := NewFrom(tiles, p, ds).value;
      |r| <= |ds|
      && (forall q :: q in r <==> exists i :: 0 <= i < |ds| && q == Move(p, ds[i]) && Open(tiles, q))
    decreases |ds|
  {
    if ds != [] {
      NewFromSpec(tiles, p, ds[1..]);
      assert forall i :: 1 <= i < |ds| ==> ds[1..][i - 1] == ds[i];
      if NewFrom(tiles, p, ds).Some? {
        var r := NewFrom(tiles, p, ds).value;
        forall q | q in r ensures exists i :: 0 <= i < |ds| && q == Move(p, ds[i]) && Open(tiles, q) {
          if q != Move(p, ds[0]) || !Open(tiles, q) {
            var i :| 0 <= i < |ds[1..]| && q == Move(p, ds[1..][i]) && Open(tiles, q);
            assert q == Move(p, ds[i + 1]);
          }
        }
        forall q | exists i :: 0 <= i < |ds| && q == Move(p, ds[i]) && Open(tiles, q) ensures q in r {
          var i :| 0 <= i < |ds| && q == Move(p, ds[i]) && Open(tiles, q);
          if i > 0 {
            assert q == Move(p, ds[1..][i - 1]);
          }
        }
      }
    }
  }

  /** `get_new_pos` succeeds when every wrapped lookup does; it returns at most four
      positions, and a neighbour is among them exactly when its tile is not Rock. */
  lemma {:induction false} NewPositionsSpec(tiles: Tiles, p: Position)
    ensures NewPositions(tiles, p).Some? <==> forall d :: tiles(Move(p, d)).Some?
    ensures NewPositions(tiles, p).Some? ==> var r := NewPositions(tiles, p).value;
      |r| <= 4
      && (forall d :: Move(p, d) in r <==> Open(tiles, Move(p, d)))
      && (forall q :: q in r ==> exists d :: q == Move(p, d))
  {
    NewFromSpec(tiles, p, Directions);
    if NewPositions(tiles, p).Some? {
      var r := NewPositions(tiles, p).value;
      forall d ensures tiles(Move(p, d)).Some? && (Move(p, d) in r <==> Open(tiles, Move(p, d))) {
        var i := Index(d);
        assert Directions[i] == d;
        assert tiles(Move(p, Directions[i])).Some?;
        if Open(tiles, Move(p, d)) {
          assert 0 <= i < |Directions| && Move(p, d) == Move(p, Directions[i]) && Open(tiles, Move(p, d));
        }
      }
      forall q | q in r ensures exists d :: q == Move(p, d) {
        var i :| 0 <= i < |Directions| && q == Move(p, Directions[i]) && Open(tiles, q);
        assert q == Move(p, Directions[i]);
      }
    } else {
      var i :| 0 <= i < |Directions| && tiles(Move(p, Directions[i])).None?;
      assert tiles(Move(p, Directions[i])).None?;
    }
  }

  /** Where a direction sits in `Directions`. */
  function Index(d: Direction): (i: nat)
    ensures i < |Directions|
  {
    match d
    case Up => 0
    case Down => 1
    case Left => 2
    case Right => 3
  }

  // ---------------------------------------------------------------- stepping

  /** The neighbours of every position, in order (`flat_map`). */
  function Neighbours(tiles: Tiles, ps: seq<Position>): Option<seq<Position>> {
    if ps == [] then Some([])
    else match (NewPositions(tiles, ps[0]), Neighbours(tiles, ps[1..]))
      case (Some(a), Some(b)) => Some(a + b)
      case _ => None
  }

  lemma {:induction false} NeighboursSpec(tiles: Tiles, ps: seq<Position>)
    ensures Neighbours(tiles, ps).Some? <==> forall i :: 0 <= i < |ps| ==> NewPositions(tiles, ps[i]).Some?
    ensures Neighbours(tiles, ps).Some? ==> forall q ::
      q in Neighbours(tiles, ps).value <==> exists i :: 0 <= i < |ps| && q in NewPositions(tiles, ps[i]).value
    decreases |ps|
  {
    if ps != [] {
      NeighboursSpec(tiles, ps[1..]);
      assert forall i :: 1 <= i < |ps| ==> ps[1..][i - 1] == ps[i];
      if Neighbours(tiles, ps).Some? {
        var r := Neighbours(tiles, ps).value;
        forall q | exists i :: 0 <= i < |ps| && q in NewPositions(tiles, ps[i]).value ensures q in r {
          var i :| 0 <= i < |ps| && q in NewPositions(tiles, ps[i]).value;
          if i > 0 {
            assert q in NewPositions(tiles, ps[1..][i - 1]).value;
          }
        }
      }
    }
  }

  /** One step: every position's neighbours, first occurrences only (`unique`). */
  function Step(tiles: Tiles, ps: seq<Position>): Option<seq<Position>> {
    match Neighbours(tiles, ps)
    case None => None
    case Some(next) => Some(Dedup(next))
  }

  /** A step reaches exactly the open positions one move away from a current
      position, each once. */
  lemma {:induction false} StepSpec(tiles: Tiles, ps: seq<Position>)
    requires Step(tiles, ps).Some?
    ensures var next := Step(tiles, ps).value;
      (forall i, j :: 0 <= i < j < |next| ==> next[i] != next[j])
      && forall q :: q in next <==> Open(tiles, q) && exists d :: Move(q, Opposite(d)) in ps
  {
    NeighboursSpec(tiles, ps);
    var next := Step(tiles, ps).value;
    forall q ensures q in next <==> Open(tiles, q) && exists d :: Move(q, Opposite(d)) in ps {
      if q in next {
        var i :| 0 <= i < |ps| && q in NewPositions(tiles, ps[i]).value;
        var d := FromNeighbour(tiles, ps, i, q);
        assert Move(q, Opposite(d)) in ps;
      }
      if Open(tiles, q) && exists d :: Move(q, Opposite(d)) in ps {
        var d :| Move(q, Opposite(d)) in ps;
        var i := ToNeighbour(tiles, ps, q, d);
      }
    }
  }

  /** A neighbour of a current position is open and one move away from it. */
  lemma {:induction false} FromNeighbour(tiles: Tiles, ps: seq<Position>, i: nat, q: Position) returns (d: Direction)
    requires i < |ps| && NewPositions(tiles, ps[i]).Some? && q in NewPositions(tiles, ps[i]).value
    ensures Open(tiles, q) && Move(q, Opposite(d)) == ps[i]
  {
    NewPositionsSpec(tiles, ps[i]);
    d :| q == Move(ps[i], d);
    MoveOpposite(ps[i], d, d);
  }

  /** An open position one move away from a current one is among its neighbours. */
  lemma {:induction false} ToNeighbour(tiles: Tiles, ps: seq<Position>, q: Position, d: Direction) returns (i: nat)
    requires Open(tiles, q) && Move(q, Opposite(d)) in ps
    requires forall i :: 0 <= i < |ps| ==> NewPositions(tiles, ps[i]).Some?
    ensures i < |ps| && q in NewPositions(tiles, ps[i]).value
  {
    var p := Move(q, Opposite(d));
    i :| 0 <= i < |ps| && ps[i] == p;
    MoveOpposite(q, Opposite(d), Opposite(d));
    assert Opposite(Opposite(d)) == d;
    NewPositionsSpec(tiles, p);
  }

  /** `n` steps from `ps`; None if some step panics. */
  function Walk(tiles: Tiles, ps: seq<Position>, n: nat): Option<seq<Position>>
    decreases n
  {
    if n == 0 then Some(ps)
    else match Step(tiles, ps)
      case None => None
      case Some(next) => Walk(tiles, next, n - 1)
  }

  /** Standing on `q` after exactly `n` steps from the start, each onto an open tile. */
  ghost predicate Reachable(tiles: Tiles, start: Position, q: Position, n: nat)
    decreases n
  {
    if n == 0 then q == start
    else Open(tiles, q) && exists d :: Reachable(tiles, start, Move(q, Opposite(d)), n - 1)
  }

  /** `ps` holds exactly the positions reachable in `k` steps. */
  ghost predicate Layer(tiles: Tiles, start: Position, ps: seq<Position>, k: nat) {
    forall q :: q in ps <==> Reachable(tiles, start, q, k)
  }

  /** No position is listed twice. */
  predicate Unrepeated(ps: seq<Position>) {
    forall i, j :: 0 <= i < j < |ps| ==> ps[i] != ps[j]
  }

  /** If the list holds exactly the layer `k`, one step yields exactly layer `k + 1`. */
  lemma {:induction false} StepReachable(tiles: Tiles, start: Position, ps: seq<Position>, k: nat)
    requires Layer(tiles, start, ps, k)
    requires Step(tiles, ps).Some?
    ensures Layer(tiles, start, Step(tiles, ps).value, k + 1)
    ensures Unrepeated(Step(tiles, ps).value)
  {
    StepSpec(tiles, ps);
    var next := Step(tiles, ps).value;
    forall q ensures q in next <==> Reachable(tiles, start, q, k + 1) {
      if q in next {
        var d :| Move(q, Opposite(d)) in ps;
        assert Reachable(tiles, start, Move(q, Opposite(d)), k);
      }
      if Reachable(tiles, start, q, k + 1) {
        var d :| Reachable(tiles, start, Move(q, Opposite(d)), k);
        assert Move(q, Opposite(d)) in ps;
      }
    }
  }

  /** Walking `n` more steps from exactly layer `k` yields exactly layer `k + n`, each
      position once. */
  lemma {:induction false} WalkFrom(tiles: Tiles, start: Position, ps: seq<Position>, k: nat, n: nat,
                                    w: seq<Position>)
    requires Layer(tiles, start, ps, k)
    requires n > 0 && Walk(tiles, ps, n) == Some(w)
    ensures Unrepeated(w) && Layer(tiles, start, w, k + n)
    decreases n
  {
    var next := Step(tiles, ps);
    WalkNext(tiles, ps, n, next);
    StepReachable(tiles, start, ps, k);
    if n > 1 {
      WalkFrom(tiles, start, next.value, k + 1, n - 1, w);
    } else {
      assert w == next.value;
    }
  }

  /** After `n` steps from the start the list holds every position reachable in
      exactly `n` steps, each once: its length counts them. */
  lemma {:induction false} WalkReachable(tiles: Tiles, start: Position, n: nat)
    requires Walk(tiles, [start], n).Some?
    ensures var r := Walk(tiles, [start], n).value;
      (forall i, j :: 0 <= i < j < |r| ==> r[i] != r[j])
      && forall q :: q in r <==> Reachable(tiles, start, q, n)
  {
    if n > 0 {
      assert Layer(tiles, start, [start], 0);
      WalkFrom(tiles, start, [start], 0, n, Walk(tiles, [start], n).value);
    }
  }

  /** The positions after `n` steps from the garden's start. */
  function Reach(garden: Map, n: nat): Option<seq<Position>> {
    Walk(TilesOf(garden), [garden.start], n)
  }

  /** One round of the step loop: the neighbours of every position, then `unique`. */
  method StepOnce(tiles: Tiles, ps: seq<Position>) returns (r: Option<seq<Position>>)
    ensures r == Step(tiles, ps)
  {
    var temp := Neighbours(tiles, ps);
    if temp.None? {
      return None;
    }
    r := Some(Dedup(temp.value));
  }

  /** A walk of `m` steps is one step, then `m - 1` more from where it lands. */
  lemma {:induction false} WalkNext(tiles: Tiles, ps: seq<Position>, m: nat, next: Option<seq<Position>>)
    requires m > 0 && next == Step(tiles, ps)
    ensures next.None? ==> Walk(tiles, ps, m).None?
    ensures next.Some? ==> Walk(tiles, ps, m) == Walk(tiles, next.value, m - 1)
  {
  }

  /** The step loop of `part_one` and `part_two` over the garden's own tiles, from
      its start. */
  method Steps(garden: Map, n: nat) returns (r: Option<seq<Position>>)
    ensures r == Reach(garden, n)
  {
    r := WalkSteps(TilesOf(garden), [garden.start], n);
  }

  /** `n` rounds of neighbours then `unique` over a growing position list. */
  method WalkSteps(tiles: Tiles, start: seq<Position>, n: nat) returns (r: Option<seq<Position>>)
    ensures r == Walk(tiles, start, n)
  {
    var curr := start;
    var left := n;
    while left > 0
      invariant Walk(tiles, curr, left) == Walk(tiles, start, n)
    {
      var next := StepOnce(tiles, curr);
      WalkNext(tiles, curr, left, next);
      if next.None? {
        return None;
      }
      curr := next.value;
      left := left - 1;
    }
    r := Some(curr);
  }

  /** `part_one`: the number of distinct positions after 64 steps. */
  method PartOne(input: string) returns (r: Option<nat>)
    ensures r.Some? <==> ParseMap(input).Some? && Reach(ParseMap(input).value, 64).Some?
    ensures r.Some? ==> r.value == |Reach(ParseMap(input).value, 64).value|
  {
    var garden := ParseMap(input);
    if garden.None? {
      return None;
    }
    var ps := Steps(garden.value, 64);
    if ps.None? {
      return None;
    }
    r := Some(|ps.value|);
  }

  // ---------------------------------------------------------------- extrapolation

  /** `rounds` turns of a window under `next`: drop the oldest value, append the
      value `next` gives. */
  function SlideWith(next: seq<int> -> int, window: seq<int>, rounds: nat): (r: seq<int>)
    requires |window| > 0
    ensures |r| == |window|
    decreases rounds
  {
    if rounds == 0 then window
    else SlideWith(next, window[1..] + [next(window)], rounds - 1)
  }

  /** The extrapolated value of a window; a window is never empty, so the 0 is never
      reached. */
  function NextValue(window: seq<int>): int {
    if window == [] then 0 else Day09Oasis.Extrapolate(window)
  }

  /** `rounds` turns of the `part_two` window: extrapolate, drop the oldest value,
      append the new one. */
  function Slide(window: seq<int>, rounds: nat): (r: seq<int>)
    requires |window| > 0
    ensures |r| == |window|
  {
    SlideWith(NextValue, window, rounds)
  }

  /** The sliding-window loop of `part_two`. */
  method SlideWindow(window: seq<int>, rounds: nat) returns (r: seq<int>)
    requires |window| > 0
    ensures r == Slide(window, rounds)
  {
    var lens := window;
    var i := 0;
    while i < rounds
      invariant 0 <= i <= rounds && |lens| == |window|
      invariant Slide(lens, rounds - i) == Slide(window, rounds)
    {
      var extrapolated := Day09Oasis.Check(lens);
      lens := lens[1..] + [extrapolated];
      i := i + 1;
    }
    r := lens;
  }

  /** Three values extrapolate along the parabola through them. */
  lemma {:induction false} ExtrapolateThree(a: int, b: int, c: int)
    ensures Day09Oasis.Extrapolate([a, b, c]) == a - 3 * b + 3 * c
  {
    var d := Day09Oasis.Diffs([a, b, c]);
    assert d == [b - a, c - b];
    var e := Day09Oasis.Diffs(d);
    assert e == [c - 2 * b + a];
    assert Day09Oasis.Diffs(e) == [];
    assert Day09Oasis.Extrapolate(e) == c - 2 * b + a;
    if Day09Oasis.AllZero(e) {
      assert Day09Oasis.Extrapolate(d) == c - b;
    } else {
      assert Day09Oasis.Extrapolate(d) == (c - b) + (c - 2 * b + a);
    }
  }

  /** 0, 0, 1, 3, 6, ...: the number of pairs among `t` things. */
  function Tri(t: nat): nat {
    if t == 0 then 0 else Tri(t - 1) + (t - 1)
  }

  /** The quadratic through `(0, a)`, `(1, b)`, `(2, c)`, written with forward
      differences. */
  function Quadratic(a: int, b: int, c: int, t: nat): (r: int)
    ensures t == 0 ==> r == a
    ensures t == 1 ==> r == b
    ensures t == 2 ==> r == c
  {
    a + t * (b - a) + Tri(t) * (c - 2 * b + a)
  }

  /** The polynomial identity behind one step of the quadratic, over plain integers
      (`tr` stands for Tri(t), `ti` for Tri(i)). */
  lemma {:induction false} QuadraticExpand(a: int, d1: int, d2: int, t: int, tr: int, i: int, ti: int)
    ensures a + (t + i) * d1 + (tr + i * t + ti) * d2 == a + t * d1 + tr * d2 + i * d1 + i * (t * d2) + ti * d2
  {
  }

  lemma {:induction false} QuadraticRecurrence(a: int, b: int, c: int, t: nat)
    ensures Quadratic(a, b, c, t) - 3 * Quadratic(a, b, c, t + 1) + 3 * Quadratic(a, b, c, t + 2)
         == Quadratic(a, b, c, t + 3)
  {
    var d1, d2 := b - a, c - 2 * b + a;
    assert Tri(t + 1) == Tri(t) + 1 * t + 0;
    assert Tri(t + 2) == Tri(t) + 2 * t + 1;
    assert Tri(t + 3) == Tri(t) + 3 * t + 3;
    QuadraticExpand(a, d1, d2, t, Tri(t), 1, 0);
    QuadraticExpand(a, d1, d2, t, Tri(t), 2, 1);
    QuadraticExpand(a, d1, d2, t, Tri(t), 3, 3);
  }

  /** One turn of a three-value window. */
  lemma {:induction false} SlideOnce(next: seq<int> -> int, x: int, y: int, z: int, k: nat)
    requires next([x, y, z]) == x - 3 * y + 3 * z
    ensures SlideWith(next, [x, y, z], k + 1) == SlideWith(next, [y, z, x - 3 * y + 3 * z], k)
  {
    assert [x, y, z][1..] + [next([x, y, z])] == [y, z, x - 3 * y + 3 * z];
  }

  /** The value the window extrapolates from `f(t)`, `f(t + 1)` and `f(t + 2)`. */
  function NextOf(f: nat -> int, t: nat): int {
    f(t) - 3 * f(t + 1) + 3 * f(t + 2)
  }

  /** A window of three over any sequence that obeys the third-difference recurrence
      slides along that sequence. */
  lemma {:induction false} SlideFrom(next: seq<int> -> int, f: nat -> int, j: nat, k: nat)
    requires forall x, y, z :: next([x, y, z]) == x - 3 * y + 3 * z
    requires forall t: nat :: NextOf(f, t) == f(t + 3)
    ensures SlideWith(next, [f(j), f(j + 1), f(j + 2)], k) == [f(j + k), f(j + k + 1), f(j + k + 2)]
    decreases k
  {
    if k > 0 {
      assert NextOf(f, j) == f(j + 3);
      SlideOnce(next, f(j), f(j + 1), f(j + 2), k - 1);
      SlideFrom(next, f, j + 1, k - 1);
      assert j + 1 + (k - 1) == j + k;
    }
  }

  lemma {:induction false} NextValueThree()
    ensures forall x, y, z :: NextValue([x, y, z]) == x - 3 * y + 3 * z
  {
    forall x, y, z ensures NextValue([x, y, z]) == x - 3 * y + 3 * z {
      ExtrapolateThree(x, y, z);
    }
  }

  /** The quadratic through `a`, `b`, `c` as a sequence. */
  function QuadraticFn(a: int, b: int, c: int): nat -> int {
    (t: nat) => Quadratic(a, b, c, t)
  }

  lemma {:induction false} QuadraticObeys(a: int, b: int, c: int)
    ensures forall t: nat :: NextOf(QuadraticFn(a, b, c), t) == QuadraticFn(a, b, c)(t + 3)
  {
    forall t: nat ensures NextOf(QuadraticFn(a, b, c), t) == QuadraticFn(a, b, c)(t + 3) {
      QuadraticRecurrence(a, b, c, t);
    }
  }

  /** After `k` turns a window of three values holds the quadratic through them at
      `k`, `k + 1` and `k + 2`, whenever `next` extrapolates three values as
      `NextValue` does. */
  lemma {:induction false} SlideQuadratic(next: seq<int> -> int, a: int, b: int, c: int, k: nat)
    requires forall x, y, z :: next([x, y, z]) == x - 3 * y + 3 * z
    ensures SlideWith(next, [a, b, c], k) == [Quadratic(a, b, c, k), Quadratic(a, b, c, k + 1), Quadratic(a, b, c, k + 2)]
  {
    QuadraticObeys(a, b, c);
    var f := QuadraticFn(a, b, c);
    assert [f(0), f(1), f(2)] == [a, b, c];
    SlideFrom(next, f, 0, k);
  }

  /** The last value of a three-value window after the `part_two` turns. */
  lemma {:induction false} WindowAnswer(w: seq<int>)
    requires |w| == 3
    ensures Slide(w, Rounds)[2] == Quadratic(w[0], w[1], w[2], Rounds + 2)
  {
    NextValueThree();
    SlideQuadratic(NextValue, w[0], w[1], w[2], Rounds);
    assert w == [w[0], w[1], w[2]];
  }

  /** The step counts `part_two` samples: half the garden's 131-tile side, then one and
      two sides further. */
  const TestSteps: seq<nat> := [65, 65 + 131, 65 + 131 * 2]

  const Rounds: nat := 202298

  /** The plot counts at the sampled step counts (`test_lens`). */
  method Samples(garden: Map) returns (r: Option<seq<int>>)
    ensures r.Some? <==> forall i :: 0 <= i < |TestSteps| ==> Reach(garden, TestSteps[i]).Some?
    ensures r.Some? ==> (|r.value| == |TestSteps|
      && forall i :: 0 <= i < |TestSteps| ==> r.value[i] == |Reach(garden, TestSteps[i]).value|)
  {
    var lens: seq<int> := [];
    var i := 0;
    while i < |TestSteps|
      invariant 0 <= i <= |TestSteps| && |lens| == i
      invariant forall k :: 0 <= k < i ==> (Reach(garden, TestSteps[k]).Some?
        && lens[k] == |Reach(garden, TestSteps[k]).value|)
    {
      var ps := Steps(garden, TestSteps[i]);
      if ps.None? {
        return None;
      }
      lens := lens + [|ps.value|];
      i := i + 1;
    }
    r := Some(lens);
  }

  /** `part_two`: the plot counts at the sampled steps, extrapolated along the window
      for 202298 turns; the answer is the quadratic through the three samples at
      202300. */
  method PartTwo(input: string) returns (r: Option<int>)
    ensures r.Some? <==> (ParseMap(input).Some?
      && forall i :: 0 <= i < |TestSteps| ==> Reach(ParseMap(input).value, TestSteps[i]).Some?)
    ensures r.Some? ==> var garden := ParseMap(input).value;
      r.value == Quadratic(|Reach(garden, TestSteps[0]).value|,
                           |Reach(garden, TestSteps[1]).value|,
                           |Reach(garden, TestSteps[2]).value|, Rounds + 2)
  {
    var garden := ParseMap(input);
    if garden.None? {
      return None;
    }
    var lens := Samples(garden.value);
    if lens.None? {
      return None;
    }
    var w := lens.value;
    var window := SlideWindow(w, Rounds);
    WindowAnswer(w);
    r := Some(window[2]);
  }
}
