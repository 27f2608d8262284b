/** Day 23: the longest hike through a forest map from the top row to the bottom row,
    first down slippery slopes that may only be walked downhill, then with every slope
    walkable and the hike taken on a graph of trail junctions. */
module Day23Hike {
  import opened Prelude
  import Compass = Day17Crucible

  type Direction = Compass.Direction
  type Cell = Compass.Cell

  // ---------------------------------------------------------------- tiles

  datatype Tile = Forest | Path | Slope(downhill: Direction)

  /** `Tile::create_part_1`: slopes keep the direction they point in. */
  function TileOne(c: char): (r: Option<Tile>)
    ensures r.Some? <==> c in {'#', '.', '^', 'v', '<', '>'}
    ensures r.Some? && r.value.Slope? ==> Compass.IsCompass(r.value.downhill)
  {
    match c
    case '#' => Some(Forest)
    case '.' => Some(Path)
    case '^' => Some(Slope(Compass.N))
    case 'v' => Some(Slope(Compass.S))
    case '<' => Some(Slope(Compass.W))
    case '>' => Some(Slope(Compass.E))
    case _ => None
  }

  /** `Tile::create_part_2`: every slope is plain path. */
  function TileTwo(c: char): Option<Tile> {
    match c
    case '#' => Some(Forest)
    case '.' | '^' | 'v' | '<' | '>' => Some(Path)
    case _ => None
  }

  /** The second reading is the first with every slope flattened to path. */
  lemma {:induction false} TileTwoFlattens(c: char)
    ensures TileTwo(c) == match TileOne(c)
                          case Some(Slope(_)) => Some(Path)
                          case t => t
  {
  }

  type Grid = seq<seq<Tile>>

  predicate Rectangular(grid: Grid) {
    forall r :: 0 <= r < |grid| ==> |grid[r]| == |grid[0]|
  }

  function ParseRow(line: string, slippery: bool): (r: Option<seq<Tile>>)
    ensures r.Some? ==> |r.value| == |line|
    ensures r.Some? ==> forall i :: 0 <= i < |line| ==>
      Some(r.value[i]) == if slippery then TileOne(line[i]) else TileTwo(line[i])
  {
    if line == [] then Some([])
    else
      var t := if slippery then TileOne(line[0]) else TileTwo(line[0]);
      match (t, ParseRow(line[1..], slippery))
      case (Some(tile), Some(rest)) => Some([tile] + rest)
      case _ => None
  }

  function ParseRows(lines: seq<string>, slippery: bool): (r: Option<Grid>)
    ensures r.Some? ==> |r.value| == |lines|
    ensures r.Some? ==> forall i :: 0 <= i < |lines| ==> ParseRow(lines[i], slippery) == Some(r.value[i])
  {
    if lines == [] then Some([])
    else match (ParseRow(lines[0], slippery), ParseRows(lines[1..], slippery))
      case (Some(row), Some(rest)) =>
        assert forall i :: 1 <= i < |lines| ==> lines[1..][i - 1] == lines[i];
        Some([row] + rest)
      case _ => None
  }

  /** `Map::create_part_1` (slippery) and `Map::create_part_2` into a `Matrix`: an
      unknown character panics, and so do rows of different lengths. */
  function ParseGrid(input: string, slippery: bool): (r: Option<Grid>)
    ensures r.Some? ==> Rectangular(r.value) && |r.value| == |Lines(input)|
  {
    match ParseRows(Lines(input), slippery)
    case None => None
    case Some(grid) => if Rectangular(grid) then Some(grid) else None
  }

  // ---------------------------------------------------------------- slippery steps

  datatype State = State(position: Cell, direction: Direction, distance: nat, tile: Tile)

  /** The directions `get_next_states` tries: only downhill from a slope, else all
      four. */
  function Tried(s: State): seq<Direction> {
    match s.tile
    case Slope(d) => [d]
    case _ => [Compass.N, Compass.E, Compass.S, Compass.W]
  }

  /** The two filters: no turning back, no forest, no slope pointing back. */
  predicate Enterable(s: State, d: Direction, t: Tile) {
    !Compass.IsInverse(s.direction, d)
    && match t
       case Forest => false
       case Path => true
       case Slope(down) => down != (-s.direction.0, -s.direction.1)
  }

  /** The successor toward `d`, if it is inside the map and passes the filters. */
  function StepTo(s: State, grid: Grid, d: Direction): seq<State> {
    match Compass.MoveInDirection(grid, s.position, d)
    case None => []
    case Some(q) =>
      var t := grid[q.0][q.1];
      if Enterable(s, d, t) then [State(q, d, s.distance + 1, t)] else []
  }

  function StepsTo(s: State, grid: Grid, ds: seq<Direction>): seq<State> {
    if ds == [] then [] else StepTo(s, grid, ds[0]) + StepsTo(s, grid, ds[1..])
  }

  /** `get_next_states`. */
  function NextStates(s: State, grid: Grid): seq<State> {
    StepsTo(s, grid, Tried(s))
  }

  /** When `t` is a successor of `s` toward some direction. */
  predicate Successor(s: State, grid: Grid, t: State) {
    Compass.MoveInDirection(grid, s.position, t.direction) == Some(t.position)
    && t.tile == grid[t.position.0][t.position.1]
    && t.distance == s.distance + 1
    && Enterable(s, t.direction, t.tile)
  }

  lemma {:induction false} StepsToSpec(s: State, grid: Grid, ds: seq<Direction>, t: State)
    ensures t in StepsTo(s, grid, ds) <==> t.direction in ds && Successor(s, grid, t)
    decreases |ds|
  {
    if ds != [] {
      StepsToSpec(s, grid, ds[1..], t);
      if t.direction !in ds[1..] && t.direction in ds {
        assert t.direction == ds[0];
      }
    }
  }

  /** The successors are exactly the moves, among the tried directions, onto a tile
      the filters let through; each is one step further. */
  lemma {:induction false} NextStatesSpec(s: State, grid: Grid, t: State)
    ensures t in NextStates(s, grid) <==> t.direction in Tried(s) && Successor(s, grid, t)
  {
    StepsToSpec(s, grid, Tried(s), t);
  }

  /** From a slope the only successor goes downhill; no successor turns back, stands
      in the forest or on a slope pointing back the way it came. */
  lemma {:induction false} NextStatesRules(s: State, grid: Grid, t: State)
    requires t in NextStates(s, grid)
    ensures s.tile.Slope? ==> t.direction == s.tile.downhill
    ensures !Compass.IsInverse(s.direction, t.direction) && t.tile != Forest
    ensures t.tile.Slope? ==> t.tile.downhill != (-s.direction.0, -s.direction.1)
    ensures Compass.InBounds(grid, t.position)
    ensures t.distance == s.distance + 1 && t.tile == grid[t.position.0][t.position.1]
  {
    NextStatesSpec(s, grid, t);
  }

  // ---------------------------------------------------------------- calc

  /** A successor rule; `calc` is the rule of `get_next_states` on one map. */
  type Next = State -> seq<State>

  function Slippery(grid: Grid): Next {
    s => NextStates(s, grid)
  }

  /** Every current state's successors, in order (`flat_map`). */
  function Expand(next: Next, states: seq<State>): seq<State> {
    if states == [] then [] else next(states[0]) + Expand(next, states[1..])
  }

  lemma {:induction false} ExpandSpec(next: Next, states: seq<State>, t: State)
    ensures t in Expand(next, states) <==> exists s :: s in states && t in next(s)
    decreases |states|
  {
    if states != [] {
      ExpandSpec(next, states[1..], t);
      if exists s :: s in states && t in next(s) {
        var s :| s in states && t in next(s);
        if s != states[0] {
          assert s in states[1..];
        }
      }
    }
  }

  /** The two halves of `partition`. */
  function AtFinish(states: seq<State>, finish: Cell): seq<State> {
    if states == [] then []
    else (if states[0].position == finish then [states[0]] else []) + AtFinish(states[1..], finish)
  }

  function Elsewhere(states: seq<State>, finish: Cell): seq<State> {
    if states == [] then []
    else (if states[0].position != finish then [states[0]] else []) + Elsewhere(states[1..], finish)
  }

  /** `partition` splits the states by whether they stand on the finish. */
  lemma {:induction false} PartitionSpec(states: seq<State>, finish: Cell)
    ensures forall t :: t in AtFinish(states, finish) <==> t in states && t.position == finish
    ensures forall t :: t in Elsewhere(states, finish) <==> t in states && t.position != finish
  {
    if states != [] {
      PartitionSpec(states[1..], finish);
    }
  }

  /** The rounds of `calc` until no state is left; None if that takes more than
      `fuel` rounds. */
  function Explore(next: Next, finish: Cell, current: seq<State>, finished: seq<State>, fuel: nat): Option<seq<State>>
    decreases fuel
  {
    if current == [] then Some(finished)
    else if fuel == 0 then None
    else
      var states := Expand(next, current);
      Explore(next, finish, Elsewhere(states, finish), finished + AtFinish(states, finish), fuel - 1)
  }

  /** `max_by_key` on the distance, then `unwrap`. */
  function MaxDistance(states: seq<State>): (r: Option<nat>)
    ensures r.Some? <==> states != []
    ensures r.Some? ==> ((exists t :: t in states && t.distance == r.value)
      && forall t :: t in states ==> t.distance <= r.value)
  {
    if states == [] then None
    else match MaxDistance(states[1..])
      case None => Some(states[0].distance)
      case Some(m) => Some(if states[0].distance > m then states[0].distance else m)
  }

  lemma {:induction false} ExploreStep(next: Next, finish: Cell, current: seq<State>, finished: seq<State>, fuel: nat)
    requires current != [] && fuel > 0
    ensures Explore(next, finish, current, finished, fuel)
      == Explore(next, finish, Elsewhere(Expand(next, current), finish),
                 finished + AtFinish(Expand(next, current), finish), fuel - 1)
  {
  }

  /** `calc`: one round of successors at a time; those at the finish are kept, the
      others go on. None where a round count of `fuel` does not suffice, or where no
      state reached the finish (the final `unwrap` panics). */
  method Calc(next: Next, start: State, finish: Cell, fuel: nat) returns (r: Option<nat>)
    ensures r == match Explore(next, finish, [start], [], fuel)
                 case None => None
                 case Some(f) => MaxDistance(f)
  {
    var current := [start];
    var finished: seq<State> := [];
    var left := fuel;
    while current != []
      invariant Explore(next, finish, current, finished, left) == Explore(next, finish, [start], [], fuel)
      decreases left
    {
      if left == 0 {
        return None;
      }
      var newStates := Expand(next, current);
      var newFinished := AtFinish(newStates, finish);
      var newUnfinished := Elsewhere(newStates, finish);
      ExploreStep(next, finish, current, finished, left);
      finished := PushAll(finished, newFinished);
      current := newUnfinished;
      left := left - 1;
    }
    r := MaxDistance(finished);
  }

  // ---------------------------------------------------------------- what calc finds

  /** The states of round `k`: the start, then the successors of the states of the
      round before that are not at the finish (the start is expanded wherever it
      is). */
  ghost predicate InRound(next: Next, finish: Cell, start: State, t: State, k: nat)
    decreases k
  {
    if k == 0 then t == start
    else exists s :: InRound(next, finish, start, s, k - 1) && (k == 1 || s.position != finish)
                     && t in next(s)
  }

  /** A hike that ends at the finish after `k >= 1` steps. */
  ghost predicate Hike(next: Next, finish: Cell, start: State, t: State, k: nat) {
    k >= 1 && InRound(next, finish, start, t, k) && t.position == finish
  }

  /** The list of round `k` still going on. */
  ghost predicate Ongoing(next: Next, finish: Cell, start: State, current: seq<State>, k: nat) {
    forall t :: t in current <==> InRound(next, finish, start, t, k) && (k == 0 || t.position != finish)
  }

  /** The finished list after `k` rounds. */
  ghost predicate Arrived(next: Next, finish: Cell, start: State, finished: seq<State>, k: nat) {
    forall t :: t in finished <==> exists j :: 1 <= j <= k && Hike(next, finish, start, t, j)
  }

  lemma {:induction false} RoundStep(next: Next, finish: Cell, start: State, current: seq<State>, k: nat, t: State)
    requires Ongoing(next, finish, start, current, k)
    ensures t in Expand(next, current) <==> InRound(next, finish, start, t, k + 1)
  {
    ExpandSpec(next, current, t);
    if InRound(next, finish, start, t, k + 1) {
      var s :| InRound(next, finish, start, s, k) && (k + 1 == 1 || s.position != finish)
               && t in next(s);
      assert s in current;
    }
  }

  /** Nothing is left once a round has no state off the finish. */
  lemma {:induction false} RoundsEnd(next: Next, finish: Cell, start: State, k: nat, j: nat, t: State)
    requires k >= 1 && Ongoing(next, finish, start, [], k) && j > k
    ensures !InRound(next, finish, start, t, j)
    decreases j
  {
    if j > k + 1 {
      var i := j - 1;
      forall s ensures !InRound(next, finish, start, s, i) {
        RoundsEnd(next, finish, start, k, i, s);
      }
    }
  }

  lemma {:induction false} OngoingStep(next: Next, finish: Cell, start: State, current: seq<State>, k: nat)
    requires Ongoing(next, finish, start, current, k)
    ensures Ongoing(next, finish, start, Elsewhere(Expand(next, current), finish), k + 1)
  {
    PartitionSpec(Expand(next, current), finish);
    forall t ensures t in Elsewhere(Expand(next, current), finish)
                     <==> InRound(next, finish, start, t, k + 1) && t.position != finish {
      RoundStep(next, finish, start, current, k, t);
    }
  }

  lemma {:induction false} ArrivedStep(next: Next, finish: Cell, start: State, current: seq<State>, finished: seq<State>, k: nat)
    requires Ongoing(next, finish, start, current, k) && Arrived(next, finish, start, finished, k)
    ensures Arrived(next, finish, start, finished + AtFinish(Expand(next, current), finish), k + 1)
  {
    var finished' := finished + AtFinish(Expand(next, current), finish);
    PartitionSpec(Expand(next, current), finish);
    forall t ensures t in finished' <==> exists j :: 1 <= j <= k + 1 && Hike(next, finish, start, t, j) {
      RoundStep(next, finish, start, current, k, t);
      if t in AtFinish(Expand(next, current), finish) {
        assert Hike(next, finish, start, t, k + 1);
      }
      if exists j :: 1 <= j <= k + 1 && Hike(next, finish, start, t, j) {
        var j :| 1 <= j <= k + 1 && Hike(next, finish, start, t, j);
        if j <= k {
          assert t in finished;
        }
      }
    }
  }

  /** The loop ends after `k'` rounds, with the finished states of all of them. */
  lemma {:induction false} ExploreFinds(next: Next, finish: Cell, start: State, current: seq<State>,
                                        finished: seq<State>, k: nat, fuel: nat, w: seq<State>) returns (k': nat)
    requires Ongoing(next, finish, start, current, k) && Arrived(next, finish, start, finished, k)
    requires Explore(next, finish, current, finished, fuel) == Some(w)
    requires k == 0 ==> current != []
    ensures k' >= k && k' >= 1 && Ongoing(next, finish, start, [], k') && Arrived(next, finish, start, w, k')
    decreases fuel
  {
    if current != [] {
      var states := Expand(next, current);
      var current' := Elsewhere(states, finish);
      var finished' := finished + AtFinish(states, finish);
      OngoingStep(next, finish, start, current, k);
      ArrivedStep(next, finish, start, current, finished, k);
      assert Explore(next, finish, current', finished', fuel - 1) == Some(w);
      k' := ExploreFinds(next, finish, start, current', finished', k + 1, fuel - 1, w);
    } else {
      k' := k;
      assert w == finished;
    }
  }

  /** A successor rule that adds one to the distance. */
  ghost predicate Counting(next: Next) {
    forall s, t :: t in next(s) ==> t.distance == s.distance + 1
  }

  lemma {:induction false} SlipperyCounts(grid: Grid)
    ensures Counting(Slippery(grid))
  {
    forall s, t | t in Slippery(grid)(s) ensures t.distance == s.distance + 1 {
      NextStatesSpec(s, grid, t);
    }
  }

  /** Under a counting rule a state of round `k` has walked `k` steps. */
  lemma {:induction false} RoundDistance(next: Next, finish: Cell, start: State, t: State, k: nat)
    requires Counting(next) && InRound(next, finish, start, t, k)
    ensures t.distance == start.distance + k
    decreases k
  {
    if k > 0 {
      var s :| InRound(next, finish, start, s, k - 1) && (k == 1 || s.position != finish)
               && t in next(s);
      RoundDistance(next, finish, start, s, k - 1);
    }
  }

  /** Under a counting rule, when `calc` returns, it returns the length of the longest
      hike from the start to the finish, counted on top of the start's distance: one
      hike reaches it and none is longer. */
  lemma {:induction false} ExploreLongest(next: Next, start: State, finish: Cell, fuel: nat)
    requires Counting(next)
    requires Explore(next, finish, [start], [], fuel).Some?
    requires MaxDistance(Explore(next, finish, [start], [], fuel).value).Some?
    ensures var m := MaxDistance(Explore(next, finish, [start], [], fuel).value).value;
      (exists t, k :: Hike(next, finish, start, t, k) && m == start.distance + k)
      && forall t, k :: Hike(next, finish, start, t, k) ==> start.distance + k <= m
  {
    var f := Explore(next, finish, [start], [], fuel).value;
    var m := MaxDistance(f).value;
    var K := ExploreFinds(next, finish, start, [start], [], 0, fuel, f);
    var t :| t in f && t.distance == m;
    var k :| 1 <= k <= K && Hike(next, finish, start, t, k);
    RoundDistance(next, finish, start, t, k);
    forall t', k' | Hike(next, finish, start, t', k') ensures start.distance + k' <= m {
      if k' > K {
        RoundsEnd(next, finish, start, K, k', t');
      }
      RoundDistance(next, finish, start, t', k');
      assert t' in f;
    }
  }

  lemma {:induction false} CalcLongest(grid: Grid, start: State, finish: Cell, fuel: nat)
    requires Explore(Slippery(grid), finish, [start], [], fuel).Some?
    requires MaxDistance(Explore(Slippery(grid), finish, [start], [], fuel).value).Some?
    ensures var m := MaxDistance(Explore(Slippery(grid), finish, [start], [], fuel).value).value;
      (exists t, k :: Hike(Slippery(grid), finish, start, t, k) && m == start.distance + k)
      && forall t, k :: Hike(Slippery(grid), finish, start, t, k) ==> start.distance + k <= m
  {
    SlipperyCounts(grid);
    ExploreLongest(Slippery(grid), start, finish, fuel);
  }


  /** The finish of the hike: the second to last cell of the bottom row. None where
      `rows - 1` or `columns - 2` underflows. */
  function Finish(grid: Grid): (r: Option<Cell>)
    requires Rectangular(grid)
    ensures r.Some? ==> Compass.InBounds(grid, r.value)
  {
    if |grid| == 0 || |grid[0]| < 2 then None else Some((|grid| - 1, |grid[0]| - 2))
  }

  /** The start: top row, second cell, heading south, on a path. */
  const Start: State := State((0, 1), Compass.S, 0, Path)

  /** `part_one`: the longest hike down the slippery map. */
  method PartOne(input: string, fuel: nat) returns (r: Option<nat>)
    ensures r == match ParseGrid(input, true)
                 case None => None
                 case Some(grid) => match Finish(grid)
                   case None => None
                   case Some(finish) => match Explore(Slippery(grid), finish, [Start], [], fuel)
                     case None => None
                     case Some(f) => MaxDistance(f)
  {
    var grid := ParseGrid(input, true);
    if grid.None? {
      return None;
    }
    var finish := Finish(grid.value);
    if finish.None? {
      return None;
    }
    r := Calc(Slippery(grid.value), Start, finish.value, fuel);
  }

  // ---------------------------------------------------------------- steps on plain paths

  /** The successor toward `d` for `get_next_states_2`: inside the map, onto a path,
      not back against the starting direction. */
  function PathStepTo(position: Cell, distance: nat, starting: Option<Direction>, grid: Grid, d: Direction): seq<State> {
    match Compass.MoveInDirection(grid, position, d)
    case None => []
    case Some(q) =>
      var backwards := match starting
                       case Some(dir) => Compass.IsInverse(dir, d)
                       case None => false;
      if !backwards && grid[q.0][q.1] == Path then [State(q, d, distance + 1, Path)] else []
  }

  function PathStepsTo(position: Cell, distance: nat, starting: Option<Direction>, grid: Grid, ds: seq<Direction>): seq<State> {
    if ds == [] then []
    else PathStepTo(position, distance, starting, grid, ds[0]) + PathStepsTo(position, distance, starting, grid, ds[1..])
  }

  /** `get_next_states_2`. */
  function NextStates2(position: Cell, distance: nat, starting: Option<Direction>, grid: Grid): seq<State> {
    PathStepsTo(position, distance, starting, grid, [Compass.N, Compass.E, Compass.S, Compass.W])
  }

  lemma {:induction false} PathStepsToSpec(position: Cell, distance: nat, starting: Option<Direction>, grid: Grid,
                                           ds: seq<Direction>, t: State)
    ensures t in PathStepsTo(position, distance, starting, grid, ds) <==>
      (t.direction in ds && Compass.MoveInDirection(grid, position, t.direction) == Some(t.position)
       && grid[t.position.0][t.position.1] == Path && t.tile == Path && t.distance == distance + 1
       && (starting.Some? ==> !Compass.IsInverse(starting.value, t.direction)))
    decreases |ds|
  {
    if ds != [] {
      PathStepsToSpec(position, distance, starting, grid, ds[1..], t);
      if t.direction !in ds[1..] && t.direction in ds {
        assert t.direction == ds[0];
      }
    }
  }

  /** The successors on plain paths are exactly the neighbours in the map that are
      paths, one step further, except the one back against the starting direction. */
  lemma {:induction false} NextStates2Spec(position: Cell, distance: nat, starting: Option<Direction>, grid: Grid, t: State)
    ensures t in NextStates2(position, distance, starting, grid) <==>
      (Compass.IsCompass(t.direction) && Compass.MoveInDirection(grid, position, t.direction) == Some(t.position)
       && grid[t.position.0][t.position.1] == Path && t.tile == Path && t.distance == distance + 1
       && (starting.Some? ==> !Compass.IsInverse(starting.value, t.direction)))
  {
    PathStepsToSpec(position, distance, starting, grid, [Compass.N, Compass.E, Compass.S, Compass.W], t);
  }

  /** There are at most four of them. */
  lemma {:induction false} NextStates2Bound(position: Cell, distance: nat, starting: Option<Direction>, grid: Grid)
    ensures |NextStates2(position, distance, starting, grid)| <= 4
  {
    var ds := [Compass.N, Compass.E, Compass.S, Compass.W];
    assert |PathStepsTo(position, distance, starting, grid, ds[3..])| <= 1;
    assert |PathStepsTo(position, distance, starting, grid, ds[2..])| <= 2;
    assert |PathStepsTo(position, distance, starting, grid, ds[1..])| <= 3;
  }

  // ---------------------------------------------------------------- find_longest

  /** A junction of the trail graph and the junctions it leads to, with weights. */
  datatype Node = Node(position: Cell, to: seq<(Cell, nat)>)

  type Structure = map<Cell, Node>

  /** How many junctions are neither visited nor current: the recursion measure. */
  function Unvisited(structure: Structure, visited: seq<Cell>, position: Cell): nat {
    |structure.Keys - (set c | c in visited) - {position}|
  }

  function Revisit(visited: seq<Cell>, position: Cell): nat {
    if position in visited then 0 else 1
  }

  /** Moving to a junction not yet visited leaves fewer unvisited ones, or the same
      number while the current one becomes visited. */
  lemma {:induction false} Descending(structure: Structure, visited: seq<Cell>, position: Cell, next: Cell)
    requires next in structure && next !in visited
    ensures Unvisited(structure, visited + [position], next) < Unvisited(structure, visited, position)
      || (Unvisited(structure, visited + [position], next) == Unvisited(structure, visited, position)
          && Revisit(visited + [position], next) < Revisit(visited, position))
  {
    var before := structure.Keys - (set c | c in visited) - {position};
    var after := structure.Keys - (set c | c in visited + [position]) - {next};
    if next == position {
      assert after == before;
    } else {
      assert after == before - {next};
      assert next in before;
    }
  }

  /** The weights `find_longest` returns: None where it looks up a position that is
      not in the structure (the `unwrap` panics). */
  function Hikes(structure: Structure, finish: Cell, position: Cell, weight: nat, visited: seq<Cell>): Option<seq<nat>>
    decreases Unvisited(structure, visited, position), Revisit(visited, position), 1, 0
  {
    if position !in structure then None
    else if structure[position].position == finish then Some([weight])
    else HikesAlong(structure, finish, position, weight, visited, structure[position].to)
  }

  /** The weights found through each of `edges` in turn, skipping visited targets. */
  function HikesAlong(structure: Structure, finish: Cell, position: Cell, weight: nat, visited: seq<Cell>,
                      edges: seq<(Cell, nat)>): Option<seq<nat>>
    decreases Unvisited(structure, visited, position), Revisit(visited, position), 0, |edges|
  {
    if edges == [] then Some([])
    else Prepend(HikesVia(structure, finish, position, weight, visited, edges[0]),
                 HikesAlong(structure, finish, position, weight, visited, edges[1..]))
  }

  /** The weights found through one edge: none if its target is visited. */
  function HikesVia(structure: Structure, finish: Cell, position: Cell, weight: nat, visited: seq<Cell>,
                    edge: (Cell, nat)): Option<seq<nat>>
    decreases Unvisited(structure, visited, position), Revisit(visited, position), 0, 0
  {
    if edge.0 in visited then Some([])
    else if edge.0 !in structure then None
    else
      Descending(structure, visited, position, edge.0);
      Hikes(structure, finish, edge.0, weight + edge.1, visited + [position])
  }

  function Prepend(first: Option<seq<nat>>, rest: Option<seq<nat>>): Option<seq<nat>> {
    match (first, rest)
    case (Some(xs), Some(ys)) => Some(xs + ys)
    case _ => None
  }

  lemma {:induction false} PrependAssoc(xs: seq<nat>, first: Option<seq<nat>>, rest: Option<seq<nat>>)
    ensures Prepend(Prepend(Some(xs), first), rest) == Prepend(Some(xs), Prepend(first, rest))
  {
    if first.Some? && rest.Some? {
      assert xs + first.value + rest.value == xs + (first.value + rest.value);
    }
  }

  /** `find_longest`: depth first through the structure, one weight per way to the
      finish. */
  method FindLongest(structure: Structure, finish: Cell, position: Cell, weight: nat, visited: seq<Cell>)
    returns (r: Option<seq<nat>>)
    ensures r == Hikes(structure, finish, position, weight, visited)
    decreases Unvisited(structure, visited, position), Revisit(visited, position), 1, 0
  {
    if position !in structure {
      return None;
    }
    var node := structure[position];
    if node.position == finish {
      return Some([weight]);
    }
    var result: seq<nat> := [];
    assert node.to[0..] == node.to;
    match HikesAlong(structure, finish, position, weight, visited, node.to) {
      case None =>
      case Some(ys) => assert [] + ys == ys;
    }
    for i := 0 to |node.to|
      invariant Hikes(structure, finish, position, weight, visited)
        == Prepend(Some(result), HikesAlong(structure, finish, position, weight, visited, node.to[i..]))
    {
      var to := node.to[i];
      assert node.to[i..][1..] == node.to[i + 1..];
      var rest := HikesAlong(structure, finish, position, weight, visited, node.to[i + 1..]);
      if to.0 !in visited {
        if to.0 !in structure {
          return None;
        }
        Descending(structure, visited, position, to.0);
        var xs := FindLongest(structure, finish, to.0, weight + to.1, visited + [position]);
        if xs.None? {
          return None;
        }
        PrependAssoc(result, xs, rest);
        result := PushAll(result, xs.value);
      } else {
        PrependAssoc(result, Some([]), rest);
        assert result + [] == result;
      }
    }
    assert node.to[|node.to|..] == [];
    assert result + [] == result;
    r := Some(result);
  }

  // ---------------------------------------------------------------- what find_longest finds

  /** A trail through the structure from `position`: each edge leaves a node other
      than the finish and leads to a position not yet visited, and the trail ends on
      the finish. */
  ghost predicate Trail(structure: Structure, finish: Cell, position: Cell, visited: seq<Cell>, path: seq<(Cell, nat)>)
    decreases |path|
  {
    position in structure
    && if path == [] then structure[position].position == finish
       else structure[position].position != finish && path[0] in structure[position].to
            && path[0].0 !in visited && Trail(structure, finish, path[0].0, visited + [position], path[1..])
  }

  function Total(path: seq<(Cell, nat)>): nat {
    if path == [] then 0 else path[0].1 + Total(path[1..])
  }

  /** Some trail from `position` to the finish has weight `x - weight`. */
  ghost predicate TrailWeighs(structure: Structure, finish: Cell, position: Cell, visited: seq<Cell>, weight: nat, x: nat) {
    exists path :: Trail(structure, finish, position, visited, path) && x == weight + Total(path)
  }

  /** Every weight `find_longest` returns belongs to a trail to the finish, and every
      such trail's weight is returned. */
  lemma {:induction false} HikesAreTrails(structure: Structure, finish: Cell, position: Cell, weight: nat,
                                          visited: seq<Cell>, x: nat)
    requires Hikes(structure, finish, position, weight, visited).Some?
    ensures x in Hikes(structure, finish, position, weight, visited).value <==>
      TrailWeighs(structure, finish, position, visited, weight, x)
    decreases Unvisited(structure, visited, position), Revisit(visited, position), 1, 0
  {
    var edges := structure[position].to;
    if structure[position].position == finish {
      if x == weight {
        assert Trail(structure, finish, position, visited, []) && x == weight + Total([]);
      }
      if TrailWeighs(structure, finish, position, visited, weight, x) {
        var path: seq<(Cell, nat)> :| Trail(structure, finish, position, visited, path) && x == weight + Total(path);
        assert path == [];
      }
    } else {
      HikesAlongAreTrails(structure, finish, position, weight, visited, edges, x);
      if TrailWeighs(structure, finish, position, visited, weight, x) {
        var path: seq<(Cell, nat)> :| Trail(structure, finish, position, visited, path) && x == weight + Total(path);
        assert path != [];
        var e := path[0];
        assert Trail(structure, finish, e.0, visited + [position], path[1..]) && x == weight + e.1 + Total(path[1..]);
        assert e in edges && e.0 !in visited && TrailWeighs(structure, finish, e.0, visited + [position], weight + e.1, x);
      }
      if exists e :: e in edges && e.0 !in visited && TrailWeighs(structure, finish, e.0, visited + [position], weight + e.1, x) {
        var e :| e in edges && e.0 !in visited && TrailWeighs(structure, finish, e.0, visited + [position], weight + e.1, x);
        var rest: seq<(Cell, nat)> :| Trail(structure, finish, e.0, visited + [position], rest) && x == weight + e.1 + Total(rest);
        var path := [e] + rest;
        assert path[1..] == rest;
        assert Trail(structure, finish, position, visited, path) && x == weight + Total(path);
      }
    }
  }

  lemma {:induction false} HikesAlongAreTrails(structure: Structure, finish: Cell, position: Cell, weight: nat,
                                               visited: seq<Cell>, edges: seq<(Cell, nat)>, x: nat)
    requires HikesAlong(structure, finish, position, weight, visited, edges).Some?
    ensures x in HikesAlong(structure, finish, position, weight, visited, edges).value <==>
      exists e :: e in edges && e.0 !in visited && TrailWeighs(structure, finish, e.0, visited + [position], weight + e.1, x)
    decreases Unvisited(structure, visited, position), Revisit(visited, position), 0, |edges|
  {
    if edges != [] {
      var e0 := edges[0];
      HikesAlongAreTrails(structure, finish, position, weight, visited, edges[1..], x);
      var tail := HikesAlong(structure, finish, position, weight, visited, edges[1..]).value;
      var head := HikesVia(structure, finish, position, weight, visited, e0).value;
      assert HikesAlong(structure, finish, position, weight, visited, edges).value == head + tail;
      ViaIsTrail(structure, finish, position, weight, visited, e0, x);
      if exists e :: e in edges && e.0 !in visited && TrailWeighs(structure, finish, e.0, visited + [position], weight + e.1, x) {
        var e :| e in edges && e.0 !in visited && TrailWeighs(structure, finish, e.0, visited + [position], weight + e.1, x);
        if e != e0 {
          assert e in edges[1..];
        }
      }
    }
  }

  lemma {:induction false} ViaIsTrail(structure: Structure, finish: Cell, position: Cell, weight: nat,
                   visited: seq<Cell>, edge: (Cell, nat), x: nat)
    requires HikesVia(structure, finish, position, weight, visited, edge).Some?
    ensures x in HikesVia(structure, finish, position, weight, visited, edge).value <==>
      edge.0 !in visited && TrailWeighs(structure, finish, edge.0, visited + [position], weight + edge.1, x)
    decreases Unvisited(structure, visited, position), Revisit(visited, position), 0, 0
  {
    if edge.0 !in visited {
      Descending(structure, visited, position, edge.0);
      HikesAreTrails(structure, finish, edge.0, weight + edge.1, visited + [position], x);
    }
  }

  // ---------------------------------------------------------------- get_structure

  /** The columns of the matrix. */
  function Columns(grid: Grid): nat {
    if |grid| == 0 then 0 else |grid[0]|
  }

  /** The path cells of row `row` left of column `n`, left to right. */
  function RowPaths(grid: Grid, row: nat, n: nat): (r: seq<Cell>)
    requires Rectangular(grid) && row < |grid| && n <= Columns(grid)
    ensures forall c :: c in r <==> c.0 == row && c.1 < n && grid[c.0][c.1] == Path
  {
    if n == 0 then []
    else RowPaths(grid, row, n - 1) + (if grid[row][n - 1] == Path then [(row, n - 1)] else [])
  }

  /** The path cells of the first `m` rows, in row-major order. */
  function GridPaths(grid: Grid, m: nat): (r: seq<Cell>)
    requires Rectangular(grid) && m <= |grid|
    ensures forall c :: c in r <==> c.0 < m && c.1 < Columns(grid) && grid[c.0][c.1] == Path
  {
    if m == 0 then [] else GridPaths(grid, m - 1) + RowPaths(grid, m - 1, Columns(grid))
  }

  /** The first loops of `get_structure`: every path cell, row by row. */
  method PathCells(grid: Grid) returns (paths: seq<Cell>)
    requires Rectangular(grid)
    ensures paths == GridPaths(grid, |grid|)
  {
    paths := [];
    for row := 0 to |grid|
      invariant paths == GridPaths(grid, row)
    {
      var cells := RowCells(grid, row);
      paths := paths + cells;
    }
  }

  /** The inner loop of the first loops of `get_structure`: one row, left to right. */
  method RowCells(grid: Grid, row: nat) returns (cells: seq<Cell>)
    requires Rectangular(grid) && row < |grid|
    ensures cells == RowPaths(grid, row, Columns(grid))
  {
    cells := [];
    for col := 0 to Columns(grid)
      invariant cells == RowPaths(grid, row, col)
    {
      if grid[row][col] == Path {
        cells := cells + [(row, col)];
      }
    }
  }

  /** The path cells with more than two path neighbours. */
  function JunctionsIn(grid: Grid, cells: seq<Cell>): (r: seq<Cell>)
    ensures forall c :: c in r <==> c in cells && |NextStates2(c, 0, None, grid)| > 2
  {
    if cells == [] then []
    else (if |NextStates2(cells[0], 0, None, grid)| > 2 then [cells[0]] else []) + JunctionsIn(grid, cells[1..])
  }

  /** `find_next_junctions` for one way out of a junction: the first cell it reaches
      that is the start, the finish or a fork, with the weight counted on the way.
      None if the corridor is longer than `fuel` steps. */
  function FollowWay(grid: Grid, way: State, startPos: Cell, finishPos: Cell, fuel: nat): Option<seq<(State, nat)>> {
    if way.position == finishPos || way.position == startPos then Some([(way, 1)])
    else
      var next := NextStates(way, grid);
      if next == [] then Some([]) else Corridor(grid, next, next[0], 1, startPos, finishPos, fuel)
  }

  /** The `while` loop of `find_next_junctions`: go on while exactly one successor is
      left; stop on the start or the finish, or push the fork. */
  function Corridor(grid: Grid, next: seq<State>, base: State, weight: nat, startPos: Cell, finishPos: Cell,
                    fuel: nat): Option<seq<(State, nat)>>
    decreases fuel
  {
    if |next| == 1 then
      var b := next[0];
      if b.position == finishPos || b.position == startPos then Some([(b, weight)])
      else if fuel == 0 then None
      else Corridor(grid, NextStates(b, grid), b, weight + 1, startPos, finishPos, fuel - 1)
    else if |next| > 1 then Some([(base, weight)])
    else Some([])
  }

  /** Every way out of a junction, in order. */
  function FollowWays(grid: Grid, ways: seq<State>, startPos: Cell, finishPos: Cell, fuel: nat,
                      acc: seq<(State, nat)>): Option<seq<(State, nat)>>
    decreases |ways|
  {
    if ways == [] then Some(acc)
    else match FollowWay(grid, ways[0], startPos, finishPos, fuel)
      case None => None
      case Some(found) => FollowWays(grid, ways[1..], startPos, finishPos, fuel, acc + found)
  }

  /** `find_next_junctions`, each corridor bounded by `fuel` steps. */
  method NextJunctions(grid: Grid, junction: Cell, startPos: Cell, finishPos: Cell, fuel: nat)
    returns (r: Option<seq<(State, nat)>>)
    ensures r == FollowWays(grid, NextStates2(junction, 0, None, grid), startPos, finishPos, fuel, [])
  {
    var ways := NextStates2(junction, 0, None, grid);
    var result: seq<(State, nat)> := [];
    for i := 0 to |ways|
      invariant FollowWays(grid, ways[i..], startPos, finishPos, fuel, result) == FollowWays(grid, ways, startPos, finishPos, fuel, [])
    {
      var way := ways[i];
      assert ways[i..][1..] == ways[i + 1..];
      if way.position == finishPos || way.position == startPos {
        result := result + [(way, 1)];
        continue;
      }
      var next := NextStates(way, grid);
      if next == [] {
        assert result + [] == result;
        continue;
      }
      var weight := 1;
      var base := next[0];
      var left := fuel;
      ghost var before := result;
      while |next| == 1
        invariant result == before
        invariant Corridor(grid, next, base, weight, startPos, finishPos, left) == FollowWay(grid, way, startPos, finishPos, fuel)
        decreases left
      {
        base := next[0];
        if base.position == finishPos || base.position == startPos {
          result := result + [(base, weight)];
          break;
        }
        if left == 0 {
          return None;
        }
        next := NextStates(base, grid);
        weight := weight + 1;
        left := left - 1;
      }
      if |next| > 1 {
        result := result + [(base, weight)];
      } else if |next| == 0 {
        assert result + [] == result;
      }
    }
    r := Some(result);
  }

  /** The edges of a node: each reached cell with its weight. */
  function Edges(found: seq<(State, nat)>): (r: seq<(Cell, nat)>)
    ensures |r| == |found| && forall k :: 0 <= k < |found| ==> r[k] == (found[k].0.position, found[k].1)
  {
    seq(|found|, k requires 0 <= k < |found| => (found[k].0.position, found[k].1))
  }

  /** The junction nodes collected into a map, one by one. */
  function NodesFrom(grid: Grid, junctions: seq<Cell>, startPos: Cell, finishPos: Cell, fuel: nat,
                     acc: Structure): Option<Structure>
    decreases |junctions|
  {
    if junctions == [] then Some(acc)
    else
      var j := junctions[0];
      match FollowWays(grid, NextStates2(j, 0, None, grid), startPos, finishPos, fuel, [])
      case None => None
      case Some(found) => NodesFrom(grid, junctions[1..], startPos, finishPos, fuel, acc[j := Node(j, Edges(found))])
  }

  /** `get_structure`: a node for every junction, then for the start and the finish.
      None where `rows - 1` or `columns - 2` underflows or a corridor exceeds `fuel`. */
  function StructureOf(grid: Grid, fuel: nat): Option<Structure>
    requires Rectangular(grid)
  {
    match Finish(grid)
    case None => None
    case Some(finishPos) =>
      var startPos: Cell := (0, 1);
      var junctions := JunctionsIn(grid, GridPaths(grid, |grid|));
      match NodesFrom(grid, junctions, startPos, finishPos, fuel, map[])
      case None => None
      case Some(nodes) =>
        match FollowWays(grid, NextStates2(startPos, 0, None, grid), startPos, finishPos, fuel, [])
        case None => None
        case Some(fromStart) =>
          match FollowWays(grid, NextStates2(finishPos, 0, None, grid), startPos, finishPos, fuel, [])
          case None => None
          case Some(fromFinish) =>
            Some(nodes[startPos := Node(startPos, Edges(fromStart))][finishPos := Node(finishPos, Edges(fromFinish))])
  }

  /** `get_structure` as the source runs it. */
  method GetStructure(grid: Grid, fuel: nat) returns (r: Option<Structure>)
    requires Rectangular(grid)
    ensures r == StructureOf(grid, fuel)
  {
    var finishPos := Finish(grid);
    if finishPos.None? {
      return None;
    }
    var startPos: Cell := (0, 1);
    var paths := PathCells(grid);
    var junctions := JunctionsIn(grid, paths);
    var nodes: Structure := map[];
    for i := 0 to |junctions|
      invariant NodesFrom(grid, junctions[i..], startPos, finishPos.value, fuel, nodes)
        == NodesFrom(grid, junctions, startPos, finishPos.value, fuel, map[])
    {
      var j := junctions[i];
      assert junctions[i..][1..] == junctions[i + 1..];
      var found := NextJunctions(grid, j, startPos, finishPos.value, fuel);
      if found.None? {
        return None;
      }
      nodes := nodes[j := Node(j, Edges(found.value))];
    }
    var fromStart := NextJunctions(grid, startPos, startPos, finishPos.value, fuel);
    if fromStart.None? {
      return None;
    }
    nodes := nodes[startPos := Node(startPos, Edges(fromStart.value))];
    var fromFinish := NextJunctions(grid, finishPos.value, startPos, finishPos.value, fuel);
    if fromFinish.None? {
      return None;
    }
    r := Some(nodes[finishPos.value := Node(finishPos.value, Edges(fromFinish.value))]);
  }

  // ---------------------------------------------------------------- what get_structure builds

  /** What `find_next_junctions` pushes for the way `way`: the way itself when it
      stands on the start or the finish (weight 1); a state on the start or the
      finish, with one less than the steps walked; a fork (more than one successor),
      with exactly the steps walked; or, when the way is itself a fork, its first
      successor with weight 1. */
  ghost predicate Reached(grid: Grid, startPos: Cell, finishPos: Cell, way: State, s: State, w: nat) {
    (s == way && (way.position == startPos || way.position == finishPos) && w == 1)
    || ((s.position == startPos || s.position == finishPos) && w + 1 == s.distance)
    || (|NextStates(s, grid)| > 1 && w == s.distance)
    || (|NextStates(way, grid)| > 1 && s == NextStates(way, grid)[0] && w == 1)
  }

  lemma {:induction false} CorridorSpec(grid: Grid, next: seq<State>, base: State, weight: nat, startPos: Cell,
                                        finishPos: Cell, fuel: nat, way: State)
    requires next == NextStates(base, grid) && base.distance == weight
    requires Corridor(grid, next, base, weight, startPos, finishPos, fuel).Some?
    ensures var found := Corridor(grid, next, base, weight, startPos, finishPos, fuel).value;
      |found| <= 1 && forall k :: 0 <= k < |found| ==> Reached(grid, startPos, finishPos, way, found[k].0, found[k].1)
    decreases fuel
  {
    if |next| == 1 {
      var b := next[0];
      NextStatesSpec(base, grid, b);
      if !(b.position == finishPos || b.position == startPos) {
        CorridorSpec(grid, NextStates(b, grid), b, weight + 1, startPos, finishPos, fuel - 1, way);
      }
    }
  }

  /** Each way pushes at most one entry, of one of the kinds above. */
  lemma {:induction false} FollowWaySpec(grid: Grid, way: State, startPos: Cell, finishPos: Cell, fuel: nat)
    requires way.distance == 1
    requires FollowWay(grid, way, startPos, finishPos, fuel).Some?
    ensures var found := FollowWay(grid, way, startPos, finishPos, fuel).value;
      |found| <= 1 && forall k :: 0 <= k < |found| ==> Reached(grid, startPos, finishPos, way, found[k].0, found[k].1)
  {
    if !(way.position == finishPos || way.position == startPos) {
      var next := NextStates(way, grid);
      if next != [] {
        NextStatesSpec(way, grid, next[0]);
        if |next| == 1 {
          var b := next[0];
          if !(b.position == finishPos || b.position == startPos) && fuel > 0 {
            CorridorSpec(grid, NextStates(b, grid), b, 2, startPos, finishPos, fuel - 1, way);
          }
        }
      }
    }
  }

  lemma {:induction false} FollowWaysSpec(grid: Grid, ways: seq<State>, startPos: Cell, finishPos: Cell, fuel: nat,
                                          acc: seq<(State, nat)>, e: (State, nat))
    requires forall way :: way in ways ==> way.distance == 1
    requires FollowWays(grid, ways, startPos, finishPos, fuel, acc).Some?
    requires e in FollowWays(grid, ways, startPos, finishPos, fuel, acc).value
    ensures e in acc || exists way :: way in ways && Reached(grid, startPos, finishPos, way, e.0, e.1)
    decreases |ways|
  {
    if ways != [] {
      var found := FollowWay(grid, ways[0], startPos, finishPos, fuel).value;
      FollowWaysSpec(grid, ways[1..], startPos, finishPos, fuel, acc + found, e);
      if e !in acc && e in acc + found {
        FollowWaySpec(grid, ways[0], startPos, finishPos, fuel);
        var k :| 0 <= k < |found| && found[k] == e;
        assert Reached(grid, startPos, finishPos, ways[0], e.0, e.1);
      } else if e !in acc + found {
        var way :| way in ways[1..] && Reached(grid, startPos, finishPos, way, e.0, e.1);
        assert way in ways;
      }
    }
  }

  /** Every entry `find_next_junctions` returns for a cell comes from one of the path
      cells next to it, as one of the kinds above. */
  lemma {:induction false} NextJunctionsSpec(grid: Grid, junction: Cell, startPos: Cell, finishPos: Cell, fuel: nat, e: (State, nat))
    requires FollowWays(grid, NextStates2(junction, 0, None, grid), startPos, finishPos, fuel, []).Some?
    requires e in FollowWays(grid, NextStates2(junction, 0, None, grid), startPos, finishPos, fuel, []).value
    ensures exists way :: way in NextStates2(junction, 0, None, grid) && Reached(grid, startPos, finishPos, way, e.0, e.1)
  {
    var ways := NextStates2(junction, 0, None, grid);
    forall way | way in ways ensures way.distance == 1 {
      NextStates2Spec(junction, 0, None, grid, way);
    }
    FollowWaysSpec(grid, ways, startPos, finishPos, fuel, [], e);
  }

  /** A junction is a path cell of the map with more than two path neighbours. */
  lemma {:induction false} JunctionsSpec(grid: Grid, c: Cell)
    requires Rectangular(grid)
    ensures c in JunctionsIn(grid, GridPaths(grid, |grid|)) <==>
      Compass.InBounds(grid, c) && grid[c.0][c.1] == Path && |NextStates2(c, 0, None, grid)| > 2
  {
    if c.0 < |grid| {
      assert |grid[c.0]| == Columns(grid);
    }
  }

  lemma {:induction false} NodesFromSpec(grid: Grid, junctions: seq<Cell>, startPos: Cell, finishPos: Cell, fuel: nat,
                                         acc: Structure)
    requires NodesFrom(grid, junctions, startPos, finishPos, fuel, acc).Some?
    requires forall c :: c in acc ==> acc[c].position == c
    ensures var nodes := NodesFrom(grid, junctions, startPos, finishPos, fuel, acc).value;
      nodes.Keys == acc.Keys + (set c | c in junctions)
      && forall c :: c in nodes ==> nodes[c].position == c
    decreases |junctions|
  {
    if junctions != [] {
      var j := junctions[0];
      var found := FollowWays(grid, NextStates2(j, 0, None, grid), startPos, finishPos, fuel, []).value;
      var acc' := acc[j := Node(j, Edges(found))];
      NodesFromSpec(grid, junctions[1..], startPos, finishPos, fuel, acc');
      assert (set c | c in junctions) == {j} + (set c | c in junctions[1..]);
    }
  }

  /** `get_structure` has a node for exactly the junctions, the start and the
      finish, each filed under its own position. */
  lemma {:induction false} StructureShape(grid: Grid, fuel: nat)
    requires Rectangular(grid) && StructureOf(grid, fuel).Some?
    ensures var structure := StructureOf(grid, fuel).value;
      (forall c :: c in structure <==> c == (0, 1) || Some(c) == Finish(grid)
                                       || c in JunctionsIn(grid, GridPaths(grid, |grid|)))
      && forall c :: c in structure ==> structure[c].position == c
  {
    var startPos: Cell := (0, 1);
    var finishPos := Finish(grid).value;
    var junctions := JunctionsIn(grid, GridPaths(grid, |grid|));
    var nodes := NodesFrom(grid, junctions, startPos, finishPos, fuel, map[]).value;
    NodesFromSpec(grid, junctions, startPos, finishPos, fuel, map[]);
    var fromStart := FollowWays(grid, NextStates2(startPos, 0, None, grid), startPos, finishPos, fuel, []).value;
    var fromFinish := FollowWays(grid, NextStates2(finishPos, 0, None, grid), startPos, finishPos, fuel, []).value;
    var structure := nodes[startPos := Node(startPos, Edges(fromStart))][finishPos := Node(finishPos, Edges(fromFinish))];
    assert StructureOf(grid, fuel) == Some(structure);
    StructureKeys(nodes, junctions, Node(startPos, Edges(fromStart)), Node(finishPos, Edges(fromFinish)));
  }

  /** The junction nodes, then the start's and the finish's: their keys and positions. */
  lemma {:induction false} StructureKeys(nodes: Structure, junctions: seq<Cell>, start: Node, finish: Node)
    requires nodes.Keys == (set c | c in junctions)
    requires forall c :: c in nodes ==> nodes[c].position == c
    ensures var structure := nodes[start.position := start][finish.position := finish];
      (forall c :: c in structure <==> c == start.position || c == finish.position || c in junctions)
      && forall c :: c in structure ==> structure[c].position == c
  {
    forall c ensures c in nodes <==> c in junctions {
      assert c in junctions <==> c in (set c' | c' in junctions);
    }
  }

  // ---------------------------------------------------------------- part two

  /** `max`, then `unwrap`. */
  function MaxOf(xs: seq<nat>): (r: Option<nat>)
    ensures r.Some? <==> xs != []
    ensures r.Some? ==> r.value in xs && forall x :: x in xs ==> x <= r.value
  {
    if xs == [] then None
    else match MaxOf(xs[1..])
      case None => Some(xs[0])
      case Some(m) =>
        assert forall x :: x in xs ==> x == xs[0] || x in xs[1..];
        Some(if xs[0] > m then xs[0] else m)
  }

  /** One more than the heaviest way from the start node to the finish. */
  function Longest(structure: Structure, finish: Cell): Option<nat> {
    match Hikes(structure, finish, (0, 1), 0, [])
    case None => None
    case Some(xs) => match MaxOf(xs)
      case None => None
      case Some(m) => Some(m + 1)
  }

  /** Part two's answer is one more than the weight of the heaviest trail from the
      start node to the finish: some trail has that weight and none is heavier. */
  lemma {:induction false} LongestTrail(structure: Structure, finish: Cell)
    requires Longest(structure, finish).Some?
    ensures TrailWeighs(structure, finish, (0, 1), [], 0, Longest(structure, finish).value - 1)
    ensures forall x: nat :: TrailWeighs(structure, finish, (0, 1), [], 0, x) ==> x + 1 <= Longest(structure, finish).value
  {
    var xs := Hikes(structure, finish, (0, 1), 0, []).value;
    var m := MaxOf(xs).value;
    HikesAreTrails(structure, finish, (0, 1), 0, [], m);
    forall x: nat | TrailWeighs(structure, finish, (0, 1), [], 0, x) ensures x + 1 <= m + 1 {
      HikesAreTrails(structure, finish, (0, 1), 0, [], x);
    }
  }

  /** `part_two`: slopes flattened, the junction graph built, its longest way found. */
  method PartTwo(input: string, fuel: nat) returns (r: Option<nat>)
    ensures r == match ParseGrid(input, false)
                 case None => None
                 case Some(grid) => match StructureOf(grid, fuel)
                   case None => None
                   case Some(structure) => Longest(structure, Finish(grid).value)
  {
    var grid := ParseGrid(input, false);
    if grid.None? {
      return None;
    }
    var structure := GetStructure(grid.value, fuel);
    if structure.None? {
      return None;
    }
    r := Answer(structure.value, Finish(grid.value).value);
  }

  /** The tail of `part_two`: the longest hike over the structure, plus one. */
  method Answer(structure: Structure, finish: Cell) returns (r: Option<nat>)
    ensures r == Longest(structure, finish)
  {
    var result := FindLongest(structure, finish, (0, 1), 0, []);
    if result.None? {
      return None;
    }
    var m := MaxOf(result.value);
    if m.None? {
      return None;
    }
    r := Some(m.value + 1);
  }
}
