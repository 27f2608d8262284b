/** Day 17: the clumsy crucible. The search itself is a library A* and is not part of
    this model; what is modelled are the rules it is given: the successor states of a
    crucible with run-length bounds, their heat-loss weights, the heuristic and the goal. */
module Day17Crucible {
  import opened Prelude

  /** The heat-loss digits, by row. */
  type Grid = seq<seq<nat>>

  type Cell = (nat, nat)

  /** A direction as (row step, column step); (0, 0) marks the start state. */
  type Direction = (int, int)

  const N: Direction := (-1, 0)
  const E: Direction := (0, 1)
  const S: Direction := (1, 0)
  const W: Direction := (0, -1)

  predicate IsCompass(d: Direction) {
    d == N || d == E || d == S || d == W
  }

  datatype State = State(position: Cell, direction: Direction, distance: nat)

  predicate InBounds<T>(grid: seq<seq<T>>, p: (int, int)) {
    0 <= p.0 < |grid| && 0 <= p.1 < |grid[p.0]|
  }

  /** `Matrix::move_in_direction`: the neighbour in the direction, when it is inside. */
  function MoveInDirection<T>(grid: seq<seq<T>>, p: Cell, d: Direction): (r: Option<Cell>)
    ensures r.Some? <==> InBounds(grid, (p.0 + d.0, p.1 + d.1))
    ensures r.Some? ==> r.value.0 == p.0 + d.0 && r.value.1 == p.1 + d.1
  {
    var q := (p.0 + d.0, p.1 + d.1);
    if InBounds(grid, q) then Some((q.0 as nat, q.1 as nat)) else None
  }

  function Weight(grid: Grid, p: Cell): nat
    requires InBounds(grid, p)
  {
    grid[p.0][p.1]
  }

  predicate IsInverse(a: Direction, b: Direction) {
    a.0 == -b.0 && a.1 == -b.1
  }

  /** The successor toward `d`, as `get_surrounding_states` builds it, if it passes its
      filters. */
  function Turn(maxDist: nat, s: State, grid: Grid, start: State, d: Direction): seq<(State, nat)> {
    match MoveInDirection(grid, s.position, d)
    case None => []
    case Some(p) =>
      if IsInverse(s.direction, d) || p == start.position then []
      else
        var distance := if s.direction == d then s.distance + 1 else 1;
        if distance <= maxDist then [(State(p, d, distance), Weight(grid, p))] else []
  }

  /** `get_surrounding_states`: the four compass directions, in order. */
  function SurroundingStates(maxDist: nat, s: State, grid: Grid, start: State): seq<(State, nat)> {
    Turn(maxDist, s, grid, start, N) + Turn(maxDist, s, grid, start, E) +
    Turn(maxDist, s, grid, start, S) + Turn(maxDist, s, grid, start, W)
  }

  /** What a successor of `s` toward `t.direction` must satisfy. */
  predicate Admissible(maxDist: nat, s: State, grid: Grid, start: State, t: State, w: nat) {
    IsCompass(t.direction) &&
    MoveInDirection(grid, s.position, t.direction) == Some(t.position) &&
    !IsInverse(s.direction, t.direction) && t.position != start.position &&
    t.distance == (if s.direction == t.direction then s.distance + 1 else 1) &&
    t.distance <= maxDist && w == Weight(grid, t.position)
  }

  /** The surrounding states are exactly the in-bounds compass neighbours that do not
      reverse, do not re-enter the start, and keep the run within `maxDist`; each is
      weighted with the digit of the cell it enters. */
  lemma {:induction false} SurroundingStatesSpec(maxDist: nat, s: State, grid: Grid, start: State, t: State, w: nat)
    ensures (t, w) in SurroundingStates(maxDist, s, grid, start) <==> Admissible(maxDist, s, grid, start, t, w)
  {
    var all := SurroundingStates(maxDist, s, grid, start);
    var tn, te, ts, tw := Turn(maxDist, s, grid, start, N), Turn(maxDist, s, grid, start, E),
      Turn(maxDist, s, grid, start, S), Turn(maxDist, s, grid, start, W);
    assert all == tn + te + ts + tw;
    assert (t, w) in all <==> (t, w) in tn || (t, w) in te || (t, w) in ts || (t, w) in tw;
  }

  /** `get_next_state`: straight on, one step longer, or nothing at the edge. */
  function NextState(s: State, grid: Grid): (r: seq<(State, nat)>)
    ensures |r| <= 1
    ensures r == [] <==> MoveInDirection(grid, s.position, s.direction).None?
    ensures r != [] ==> r[0].0 == State(MoveInDirection(grid, s.position, s.direction).value, s.direction, s.distance + 1)
    ensures r != [] ==> r[0].1 == Weight(grid, r[0].0.position)
  {
    match MoveInDirection(grid, s.position, s.direction)
    case Some(p) => [(State(p, s.direction, s.distance + 1), Weight(grid, p))]
    case None => []
  }

  /** The successor closure of `calc`: a crucible may turn once it has gone `minDist`
      cells (or before its first move); otherwise it must go straight. */
  function Successors(minDist: nat, maxDist: nat, s: State, grid: Grid, start: State): seq<(State, nat)> {
    if s.distance >= minDist || s.direction == (0, 0) then SurroundingStates(maxDist, s, grid, start)
    else NextState(s, grid)
  }

  /** The heuristic: the Manhattan distance to the finish. */
  function Heuristic(finish: Cell, s: State): nat {
    (if finish.0 >= s.position.0 then finish.0 - s.position.0 else s.position.0 - finish.0) +
    (if finish.1 >= s.position.1 then finish.1 - s.position.1 else s.position.1 - finish.1)
  }

  predicate Goal(minDist: nat, finish: Cell, s: State) {
    s.position == finish && s.distance >= minDist
  }

  // ---------------------------------------------------------------- what the rules keep

  /** A state the search can reach after its first move. */
  predicate Moving(maxDist: nat, grid: Grid, s: State) {
    InBounds(grid, s.position) && IsCompass(s.direction) && 1 <= s.distance <= maxDist
  }

  /** Every successor of the start or of a moving state is a moving state, and a
      crucible changes direction only after at least `minDist` cells in a straight line. */
  lemma {:induction false} SuccessorsSpec(minDist: nat, maxDist: nat, s: State, grid: Grid, start: State, t: State, w: nat)
    requires minDist <= maxDist
    requires s.direction == (0, 0) || Moving(maxDist, grid, s)
    requires (t, w) in Successors(minDist, maxDist, s, grid, start)
    ensures Moving(maxDist, grid, t)
    ensures w == Weight(grid, t.position)
    ensures s.direction != (0, 0) && t.direction != s.direction ==> s.distance >= minDist
    ensures !IsInverse(s.direction, t.direction)
  {
    if s.distance >= minDist || s.direction == (0, 0) {
      SurroundingStatesSpec(maxDist, s, grid, start, t, w);
    } else {
      assert (t, w) == NextState(s, grid)[0];
    }
  }

  /** A path the search may take: each state is a successor of the one before, and
      `weights[i]` is the heat lost entering `states[i + 1]`. */
  ghost predicate IsPath(minDist: nat, maxDist: nat, grid: Grid, start: State, states: seq<State>, weights: seq<nat>) {
    |states| == |weights| + 1 &&
    forall i :: 0 <= i < |weights| ==> (states[i + 1], weights[i]) in Successors(minDist, maxDist, states[i], grid, start)
  }

  function SumNat(s: seq<nat>): nat {
    if s == [] then 0 else s[0] + SumNat(s[1..])
  }

  predicate PositiveWeights(grid: Grid) {
    forall r, c :: 0 <= r < |grid| && 0 <= c < |grid[r]| ==> grid[r][c] >= 1
  }

  /** One move changes the Manhattan distance by at most one. */
  lemma {:induction false} StepHeuristic(minDist: nat, maxDist: nat, s: State, grid: Grid, start: State, t: State, w: nat, finish: Cell)
    requires s.direction == (0, 0) || IsCompass(s.direction)
    requires (t, w) in Successors(minDist, maxDist, s, grid, start)
    ensures Heuristic(finish, s) <= Heuristic(finish, t) + 1
    ensures w == Weight(grid, t.position)
  {
    if s.distance >= minDist || s.direction == (0, 0) {
      SurroundingStatesSpec(maxDist, s, grid, start, t, w);
      assert IsCompass(t.direction);
    } else {
      assert (t, w) == NextState(s, grid)[0];
    }
  }

  /** With heat-loss digits of at least 1, the heuristic never overestimates the heat
      lost on any path to a goal, so the A* search it guides finds a cheapest path. */
  lemma {:induction false} HeuristicAdmissible(minDist: nat, maxDist: nat, grid: Grid, start: State,
                                              states: seq<State>, weights: seq<nat>, finish: Cell)
    requires PositiveWeights(grid) && minDist <= maxDist
    requires IsPath(minDist, maxDist, grid, start, states, weights)
    requires states[0].direction == (0, 0) || Moving(maxDist, grid, states[0])
    requires Goal(minDist, finish, states[|states| - 1])
    ensures Heuristic(finish, states[0]) <= SumNat(weights)
  {
    if weights != [] {
      StepHeuristic(minDist, maxDist, states[0], grid, start, states[1], weights[0], finish);
      SuccessorsSpec(minDist, maxDist, states[0], grid, start, states[1], weights[0]);
      assert IsPath(minDist, maxDist, grid, start, states[1..], weights[1..]) by {
        forall i | 0 <= i < |weights[1..]|
          ensures (states[1..][i + 1], weights[1..][i]) in Successors(minDist, maxDist, states[1..][i], grid, start)
        {
          assert states[1..][i + 1] == states[i + 2] && states[1..][i] == states[i + 1];
        }
      }
      HeuristicAdmissible(minDist, maxDist, grid, start, states[1..], weights[1..], finish);
    }
  }

  // ---------------------------------------------------------------- parsing

  /** `c.to_digit(10).unwrap()` over a line. */
  function ParseDigits(line: string): (r: Option<seq<nat>>)
    ensures r.Some? ==> |r.value| == |line| && forall i :: 0 <= i < |line| ==> r.value[i] <= 9
    ensures r.Some? <==> AllDigits(line)
  {
    if line == [] then Some([])
    else if !IsAsciiDigit(line[0]) then None
    else match ParseDigits(line[1..])
      case None => None
      case Some(rest) => Some([DigitValue(line[0])] + rest)
  }

  predicate Rectangular(grid: Grid) {
    forall r :: 0 <= r < |grid| ==> |grid[r]| == |grid[0]|
  }

  /** `Map::from_str` into a `Matrix`: every character must be a digit and every row as
      long as the first. */
  function ParseGrid(input: string): (r: Option<Grid>)
    ensures r.Some? ==> Rectangular(r.value) && |r.value| == |Lines(input)|
  {
    var lines := Lines(input);
    var rows := ParseRows(lines);
    if rows.None? || !Rectangular(rows.value) then None else rows
  }

  function ParseRows(lines: seq<string>): (r: Option<Grid>)
    ensures r.Some? ==> |r.value| == |lines|
    ensures r.Some? ==> forall i :: 0 <= i < |lines| ==> |r.value[i]| == |lines[i]|
  {
    if lines == [] then Some([])
    else match (ParseDigits(lines[0]), ParseRows(lines[1..]))
      case (Some(row), Some(rest)) => Some([row] + rest)
      case _ => None
  }

  /** The search problem of a part: start, finish and run-length bounds. An empty grid
      has no finish (`rows - 1` underflows). */
  datatype Problem = Problem(grid: Grid, start: State, finish: Cell, minDist: nat, maxDist: nat)

  function ProblemOf(input: string, minDist: nat, maxDist: nat): (r: Option<Problem>)
    ensures r.Some? ==> InBounds(r.value.grid, r.value.finish) && InBounds(r.value.grid, r.value.start.position)
    ensures r.Some? ==> r.value.start == State((0, 0), (0, 0), 0)
  {
    match ParseGrid(input)
    case None => None
    case Some(grid) =>
      if |grid| == 0 || |grid[0]| == 0 then None
      else Some(Problem(grid, State((0, 0), (0, 0), 0), (|grid| - 1, |grid[0]| - 1), minDist, maxDist))
  }

  /** `part_one`: runs of one to three cells. */
  function PartOne(input: string): Option<Problem> {
    ProblemOf(input, 1, 3)
  }

  /** `part_two`: runs of four to ten cells. */
  function PartTwo(input: string): Option<Problem> {
    ProblemOf(input, 4, 10)
  }
}
