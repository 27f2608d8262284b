/** Day 18: the lavaduct lagoon. The dig plan is walked from (0, 0), every cell dug is
    recorded with the direction it was entered from and the one it is left by, and the
    interior is counted by scanline parity over the bounding box. */
module Day18Lagoon {
  import opened Prelude

  datatype Direction = North | South | West | East

  /** `Direction::from`; any other character makes the program panic. */
  function DirectionOf(c: char): (r: Option<Direction>)
    ensures r.Some? <==> c in {'U', 'D', 'L', 'R'}
  {
    match c
    case 'U' => Some(North)
    case 'D' => Some(South)
    case 'L' => Some(West)
    case 'R' => Some(East)
    case _ => None
  }

  /** `Direction::inverse`. */
  function Inverse(d: Direction): (r: Direction)
    ensures r != d
  {
    match d
    case North => South
    case East => West
    case South => North
    case West => East
  }

  datatype Position = Position(x: int, y: int)

  /** `Position::advance`: one unit, with y growing southward. */
  function Advance(p: Position, d: Direction): (r: Position)
    ensures (r.x - p.x) * (r.x - p.x) + (r.y - p.y) * (r.y - p.y) == 1
    ensures d == North ==> r.y == p.y - 1
  {
    match d
    case North => Position(p.x, p.y - 1)
    case South => Position(p.x, p.y + 1)
    case West => Position(p.x - 1, p.y)
    case East => Position(p.x + 1, p.y)
  }

  lemma {:induction false} InverseInvolution(d: Direction)
    ensures Inverse(Inverse(d)) == d
  {
  }

  /** Stepping back the other way returns to the same cell. */
  lemma {:induction false} AdvanceInverse(p: Position, d: Direction)
    ensures Advance(Advance(p, d), Inverse(d)) == p
  {
  }

  datatype Instruction = Instruction(direction: Direction, amount: nat, color: string)

  /** The entry and exit directions of a dug cell. */
  type Ends = (Direction, Direction)

  type Border = map<Position, Ends>

  // ---------------------------------------------------------------- the border

  function Repeat(d: Direction, n: nat): (r: seq<Direction>)
    ensures |r| == n && forall i :: 0 <= i < n ==> r[i] == d
  {
    seq(n, _ => d)
  }

  /** The plan as unit steps. */
  function Steps(instructions: seq<Instruction>): seq<Direction> {
    if instructions == [] then []
    else Repeat(instructions[0].direction, instructions[0].amount) + Steps(instructions[1..])
  }

  /** Dig along `steps` from `pos`: each cell is recorded with the inverse of the step
      that reached it (`prev` for the first) and the step that leaves it; a cell dug
      again is overwritten. */
  function BorderFrom(steps: seq<Direction>, prev: Direction, pos: Position, m: Border): (r: Border)
    ensures m.Keys <= r.Keys
  {
    if steps == [] then m
    else BorderFrom(steps[1..], steps[0], Advance(pos, steps[0]), m[pos := (Inverse(prev), steps[0])])
  }

  /** `build_border`: an empty plan (no last instruction) or an amount of 0 (the
      `amount - 1` underflows) makes the program panic. */
  function BorderOf(instructions: seq<Instruction>): Option<Border> {
    if instructions == [] || exists i :: 0 <= i < |instructions| && instructions[i].amount == 0 then None
    else Some(BorderFrom(Steps(instructions), instructions[|instructions| - 1].direction, Position(0, 0), map[]))
  }

  /** The cell reached after the first `j` steps. */
  function WalkPos(pos: Position, steps: seq<Direction>, j: nat): Position
    requires j <= |steps|
    decreases j
  {
    if j == 0 then pos else WalkPos(Advance(pos, steps[0]), steps[1..], j - 1)
  }

  /** The step before step `j`, the first one's being `prev`. */
  function Before(steps: seq<Direction>, prev: Direction, j: nat): Direction
    requires j < |steps|
  {
    if j == 0 then prev else steps[j - 1]
  }

  /** The cells the walk starts its steps from. */
  function Visited(pos: Position, steps: seq<Direction>): set<Position> {
    set j | 0 <= j < |steps| :: WalkPos(pos, steps, j)
  }

  /** The border holds exactly the cells the walk starts its steps from. */
  lemma {:induction false} BorderKeys(steps: seq<Direction>, prev: Direction, pos: Position, m: Border)
    ensures BorderFrom(steps, prev, pos, m).Keys == m.Keys + Visited(pos, steps)
  {
    if steps != [] {
      var next := Advance(pos, steps[0]);
      BorderKeys(steps[1..], steps[0], next, m[pos := (Inverse(prev), steps[0])]);
      assert m[pos := (Inverse(prev), steps[0])].Keys == m.Keys + {pos};
      var tail := Visited(next, steps[1..]);
      var all := Visited(pos, steps);
      assert all == {pos} + tail by {
        forall q | q in all ensures q in {pos} + tail {
          var j :| 0 <= j < |steps| && WalkPos(pos, steps, j) == q;
          if j > 0 {
            assert WalkPos(next, steps[1..], j - 1) == q;
          }
        }
        forall q | q in tail ensures q in all {
          var j :| 0 <= j < |steps[1..]| && WalkPos(next, steps[1..], j) == q;
          assert WalkPos(pos, steps, j + 1) == q;
        }
        assert WalkPos(pos, steps, 0) == pos;
      }
      calc {
        BorderFrom(steps, prev, pos, m).Keys;
        m.Keys + {pos} + tail;
        m.Keys + all;
      }
    }
  }

  /** A cell the walk never starts a step from keeps its value. */
  lemma {:induction false} BorderKeep(steps: seq<Direction>, prev: Direction, pos: Position, m: Border, p: Position)
    requires p in m && forall j :: 0 <= j < |steps| ==> WalkPos(pos, steps, j) != p
    ensures BorderFrom(steps, prev, pos, m)[p] == m[p]
  {
    if steps != [] {
      assert WalkPos(pos, steps, 0) == pos;
      var next := Advance(pos, steps[0]);
      forall j | 0 <= j < |steps[1..]| ensures WalkPos(next, steps[1..], j) != p {
        assert WalkPos(pos, steps, j + 1) == WalkPos(next, steps[1..], j);
      }
      BorderKeep(steps[1..], steps[0], next, m[pos := (Inverse(prev), steps[0])], p);
    }
  }

  /** A cell holds the entry and exit of its last visit: the inverse of the step that
      reached it there, and the step that left it. */
  lemma {:induction false} BorderLastVisit(steps: seq<Direction>, prev: Direction, pos: Position, m: Border, j: nat)
    requires j < |steps|
    requires forall k :: j < k < |steps| ==> WalkPos(pos, steps, k) != WalkPos(pos, steps, j)
    ensures WalkPos(pos, steps, j) in BorderFrom(steps, prev, pos, m)
    ensures BorderFrom(steps, prev, pos, m)[WalkPos(pos, steps, j)] == (Inverse(Before(steps, prev, j)), steps[j])
  {
    var next := Advance(pos, steps[0]);
    var m' := m[pos := (Inverse(prev), steps[0])];
    var p := WalkPos(pos, steps, j);
    BorderKeys(steps, prev, pos, m);
    if j == 0 {
      forall k | 0 <= k < |steps[1..]| ensures WalkPos(next, steps[1..], k) != p {
        assert WalkPos(pos, steps, k + 1) == WalkPos(next, steps[1..], k);
      }
      BorderKeep(steps[1..], steps[0], next, m', p);
    } else {
      assert p == WalkPos(next, steps[1..], j - 1);
      forall k | j - 1 < k < |steps[1..]| ensures WalkPos(next, steps[1..], k) != p {
        assert WalkPos(pos, steps, k + 1) == WalkPos(next, steps[1..], k);
      }
      BorderLastVisit(steps[1..], steps[0], next, m', j - 1);
      assert Before(steps, prev, j) == Before(steps[1..], steps[0], j - 1);
    }
  }

  lemma {:induction false} StepsCons(instructions: seq<Instruction>, i: nat)
    requires i < |instructions|
    ensures Steps(instructions[i..]) == Repeat(instructions[i].direction, instructions[i].amount) + Steps(instructions[i + 1..])
  {
    assert instructions[i..][1..] == instructions[i + 1..];
  }

  lemma {:induction false} RepeatCons(d: Direction, n: nat, rest: seq<Direction>)
    requires n > 0
    ensures Repeat(d, n) + rest == [d] + (Repeat(d, n - 1) + rest)
  {
    assert Repeat(d, n) == [d] + Repeat(d, n - 1);
  }

  lemma {:induction false} BorderFromCons(d: Direction, rest: seq<Direction>, prev: Direction, pos: Position, m: Border)
    ensures BorderFrom([d] + rest, prev, pos, m) == BorderFrom(rest, d, Advance(pos, d), m[pos := (Inverse(prev), d)])
  {
    assert ([d] + rest)[1..] == rest;
  }

  /** The loop of `build_border`. */
  method BuildBorder(instructions: seq<Instruction>) returns (r: Option<Border>)
    ensures r == BorderOf(instructions)
  {
    if |instructions| == 0 {
      return None;
    }
    var goal := BorderFrom(Steps(instructions), instructions[|instructions| - 1].direction, Position(0, 0), map[]);
    var result: Border := map[];
    var lastPos := Position(0, 0);
    var lastDir := instructions[|instructions| - 1].direction;
    for i := 0 to |instructions|
      invariant forall j :: 0 <= j < i ==> instructions[j].amount > 0
      invariant BorderFrom(Steps(instructions[i..]), lastDir, lastPos, result) == goal
    {
      var d, n := instructions[i].direction, instructions[i].amount;
      var rest := Steps(instructions[i + 1..]);
      if n == 0 {
        return None;
      }
      StepsCons(instructions, i);
      RepeatCons(d, n, rest);
      BorderFromCons(d, Repeat(d, n - 1) + rest, lastDir, lastPos, result);
      result := result[lastPos := (Inverse(lastDir), d)];
      lastDir := d;
      for k := 0 to n - 1
        invariant lastDir == d
        invariant BorderFrom(Repeat(d, n - 1 - k) + rest, d, Advance(lastPos, d), result) == goal
      {
        var newPos := Advance(lastPos, d);
        RepeatCons(d, n - 1 - k, rest);
        BorderFromCons(d, Repeat(d, n - 1 - (k + 1)) + rest, d, newPos, result);
        result := result[newPos := (Inverse(lastDir), d)];
        lastPos := newPos;
        lastDir := d;
      }
      assert Repeat(d, 0) + rest == rest;
      lastPos := Advance(lastPos, d);
      lastDir := d;
    }
    assert instructions[|instructions|..] == [];
    return Some(result);
  }

  // ---------------------------------------------------------------- the interior

  /** A border cell with an end pointing South crosses the scanline. */
  predicate Crossing(border: Border, p: Position) {
    p in border && (border[p].0 == South || border[p].1 == South)
  }

  /** The crossings in row `y` among the `k` cells from column `x0`. */
  function CrossingsBefore(border: Border, y: int, x0: int, k: nat): nat {
    if k == 0 then 0
    else CrossingsBefore(border, y, x0, k - 1) + (if Crossing(border, Position(x0 + k - 1, y)) then 1 else 0)
  }

  /** A cell is inside when it is not dug and an odd number of crossings lies to its
      left within the box. */
  predicate Inside(border: Border, y: int, x0: int, k: nat) {
    Position(x0 + k, y) !in border && CrossingsBefore(border, y, x0, k) % 2 == 1
  }

  function InsideInRow(border: Border, y: int, x0: int, k: nat): nat {
    if k == 0 then 0 else InsideInRow(border, y, x0, k - 1) + (if Inside(border, y, x0, k - 1) then 1 else 0)
  }

  /** The interior cells of the rows `y0 .. y0 + rows - 1`, each row `width` cells wide. */
  function InsideInRows(border: Border, x0: int, width: nat, y0: int, rows: nat): nat {
    if rows == 0 then 0
    else InsideInRows(border, x0, width, y0, rows - 1) + InsideInRow(border, y0 + rows - 1, x0, width)
  }

  /** The bounding box of the dug cells, each bound attained. */
  ghost predicate IsBox(border: Border, minX: int, maxX: int, minY: int, maxY: int) {
    (forall p :: p in border ==> minX <= p.x <= maxX && minY <= p.y <= maxY) &&
    (exists p :: p in border && p.x == minX) && (exists p :: p in border && p.x == maxX) &&
    (exists p :: p in border && p.y == minY) && (exists p :: p in border && p.y == maxY)
  }

  /** The `min_by_key` / `max_by_key` over the keys. */
  method BoundingBox(border: Border) returns (minX: int, maxX: int, minY: int, maxY: int)
    requires |border| > 0
    ensures IsBox(border, minX, maxX, minY, maxY)
  {
    var first :| first in border;
    minX, maxX, minY, maxY := first.x, first.x, first.y, first.y;
    ghost var a, b, c, d := first, first, first, first;
    var rest := border.Keys - {first};
    while rest != {}
      invariant rest <= border.Keys
      invariant forall p :: p in border && p !in rest ==> minX <= p.x <= maxX && minY <= p.y <= maxY
      invariant a in border && a.x == minX && b in border && b.x == maxX
      invariant c in border && c.y == minY && d in border && d.y == maxY
      decreases |rest|
    {
      var p :| p in rest;
      if p.x < minX { minX, a := p.x, p; }
      if p.x > maxX { maxX, b := p.x, p; }
      if p.y < minY { minY, c := p.y, p; }
      if p.y > maxY { maxY, d := p.y, p; }
      rest := rest - {p};
    }
  }

  /** `count_inside`: each row toggles `inside` at crossings and counts undug cells
      while inside. */
  method CountInside(border: Border) returns (count: nat, minX: int, maxX: int, minY: int, maxY: int)
    requires |border| > 0
    ensures IsBox(border, minX, maxX, minY, maxY)
    ensures count == InsideInRows(border, minX, maxX - minX + 1, minY, maxY - minY + 1)
  {
    minX, maxX, minY, maxY := BoundingBox(border);
    var a :| a in border && a.x == minX;
    var width := maxX - minX + 1;
    var height := maxY - minY + 1;
    count := 0;
    for j := 0 to height
      invariant count == InsideInRows(border, minX, width, minY, j)
    {
      var y := minY + j;
      var inside := false;
      var rowCount := 0;
      for k := 0 to width
        invariant inside <==> CrossingsBefore(border, y, minX, k) % 2 == 1
        invariant rowCount == InsideInRow(border, y, minX, k)
      {
        var p := Position(minX + k, y);
        if p in border {
          if border[p].0 == South || border[p].1 == South {
            inside := !inside;
          }
        } else if inside {
          rowCount := rowCount + 1;
        }
      }
      count := count + rowCount;
    }
  }

  function UndugInRow(border: Border, y: int, x0: int, k: nat): nat {
    if k == 0 then 0 else UndugInRow(border, y, x0, k - 1) + (if Position(x0 + k - 1, y) !in border then 1 else 0)
  }

  /** Dug cells are never counted as interior. */
  lemma {:induction false} InsideAtMostUndug(border: Border, y: int, x0: int, k: nat)
    ensures InsideInRow(border, y, x0, k) <= UndugInRow(border, y, x0, k)
  {
    if k > 0 {
      InsideAtMostUndug(border, y, x0, k - 1);
    }
  }

  /** A row without crossings has no interior. */
  lemma {:induction false} NoCrossingNoInside(border: Border, y: int, x0: int, k: nat)
    requires forall p :: Crossing(border, p) ==> p.y != y
    ensures CrossingsBefore(border, y, x0, k) == 0 && InsideInRow(border, y, x0, k) == 0
  {
    if k > 0 {
      NoCrossingNoInside(border, y, x0, k - 1);
    }
  }

  // ---------------------------------------------------------------- parsing

  /** `Instruction::from_str`: at least three space-separated fields; the first
      character of the first is the direction and the second is the amount. */
  function ParseInstruction(line: string): (r: Option<Instruction>)
    ensures r.Some? ==> |SplitChar(line, ' ')| >= 3 && ParseNat(SplitChar(line, ' ')[1]) == Some(r.value.amount)
  {
    var fields := SplitChar(line, ' ');
    if |fields| < 3 || fields[0] == "" then None
    else match (DirectionOf(fields[0][0]), ParseNat(fields[1]))
      case (Some(d), Some(n)) => Some(Instruction(d, n, fields[2]))
      case _ => None
  }

  function ParseInstructions(lines: seq<string>): (r: Option<seq<Instruction>>)
    ensures r.Some? ==> |r.value| == |lines|
  {
    if lines == [] then Some([])
    else match (ParseInstruction(lines[0]), ParseInstructions(lines[1..]))
      case (Some(i), Some(rest)) => Some([i] + rest)
      case _ => None
  }

  /** A plan with at least one step gives a border with at least one cell. */
  lemma {:induction false} BorderNonEmpty(instructions: seq<Instruction>)
    requires BorderOf(instructions).Some?
    ensures |BorderOf(instructions).value| > 0
  {
    var steps := Steps(instructions);
    StepsCons(instructions, 0);
    assert instructions[0..] == instructions;
    BorderKeys(steps, instructions[|instructions| - 1].direction, Position(0, 0), map[]);
    assert WalkPos(Position(0, 0), steps, 0) in BorderOf(instructions).value;
  }

  /** `part_one`: the dug cells plus the interior. */
  method PartOne(input: string) returns (r: Option<nat>)
    ensures r.Some? <==> ParseInstructions(Lines(input)).Some? && BorderOf(ParseInstructions(Lines(input)).value).Some?
    ensures r.Some? ==> var border := BorderOf(ParseInstructions(Lines(input)).value).value;
      exists minX, maxX, minY, maxY :: IsBox(border, minX, maxX, minY, maxY) &&
        r.value == |border| + InsideInRows(border, minX, maxX - minX + 1, minY, maxY - minY + 1)
  {
    var instructions := ParseInstructions(Lines(input));
    if instructions.None? {
      return None;
    }
    var border := BuildBorder(instructions.value);
    if border.None? {
      return None;
    }
    BorderNonEmpty(instructions.value);
    var inside, minX, maxX, minY, maxY := CountInside(border.value);
    return Some(|border.value| + inside);
  }
}
