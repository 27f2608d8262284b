/** Day 3: the gear ratios. The engine schematic is scanned for numbers (maximal digit
    runs) and symbols; a number next to a symbol is a part number, and a '*' next to
    exactly two part numbers is a gear. */
module Day03Gears {
  import opened Prelude

  datatype Position = Position(x: int, y: int)

  /** A number as scanned: its digits and the position of its first digit. */
  datatype Number = Number(digits: string, pos: Position)

  datatype Symbol = Symbol(isGear: bool, pos: Position)

  /** The eight cells around `p`, in the order the program lists them. */
  function Neighbours(p: Position): seq<Position> {
    [Position(p.x - 1, p.y), Position(p.x - 1, p.y - 1), Position(p.x, p.y - 1),
     Position(p.x + 1, p.y - 1), Position(p.x + 1, p.y), Position(p.x + 1, p.y + 1),
     Position(p.x, p.y + 1), Position(p.x - 1, p.y + 1)]
  }

  predicate Adjacent(p: Position, q: Position) {
    p != q && -1 <= q.x - p.x <= 1 && -1 <= q.y - p.y <= 1
  }

  /** The listed cells are exactly the cells at king's-move distance one. */
  lemma {:induction false} NeighboursAdjacent(p: Position, q: Position)
    ensures q in Neighbours(p) <==> Adjacent(p, q)
  {
    var ns := Neighbours(p);
    if Adjacent(p, q) {
      var dx, dy := q.x - p.x, q.y - p.y;
      if dx == -1 && dy == 0 { assert q == ns[0]; }
      else if dx == -1 && dy == -1 { assert q == ns[1]; }
      else if dx == 0 && dy == -1 { assert q == ns[2]; }
      else if dx == 1 && dy == -1 { assert q == ns[3]; }
      else if dx == 1 && dy == 0 { assert q == ns[4]; }
      else if dx == 1 && dy == 1 { assert q == ns[5]; }
      else if dx == 0 && dy == 1 { assert q == ns[6]; }
      else { assert q == ns[7]; }
    }
  }

  /** `Number::get_positions`: one cell per digit along the number's line. */
  function Cells(n: Number): seq<Position> {
    seq(|n.digits|, i requires 0 <= i < |n.digits| => Position(n.pos.x + i, n.pos.y))
  }

  /** The loop of `get_positions`: the first digit's cell, then one more per digit. */
  method GetPositions(n: Number) returns (positions: seq<Position>)
    ensures |n.digits| > 0 ==> positions == Cells(n)
    ensures |positions| == (if |n.digits| == 0 then 1 else |n.digits|)
    ensures forall i :: 0 <= i < |positions| ==> positions[i] == Position(n.pos.x + i, n.pos.y)
  {
    positions := [n.pos];
    var index := 1;
    while index < |n.digits|
      invariant 1 <= index && |positions| == index
      invariant index <= |n.digits| || index == 1
      invariant forall i :: 0 <= i < index ==> positions[i] == Position(n.pos.x + i, n.pos.y)
    {
      positions := positions + [Position(n.pos.x + index, n.pos.y)];
      index := index + 1;
    }
    if |n.digits| > 0 {
      assert positions == Cells(n);
    }
  }

  /** The cell of the digit at `i`. */
  function DigitCell(n: Number, i: int): Position {
    Position(n.pos.x + i, n.pos.y)
  }

  /** `Number::to_number`; the scanner only builds digit strings (see
      `ScannedNumbersAreDigits`), where `parse` succeeds. */
  function Value(n: Number): nat {
    if AllDigits(n.digits) then DigitsValue(n.digits) else 0
  }

  // ---------------------------------------------------------------- part numbers

  /** Some symbol lies in the neighbourhood of `p`. */
  predicate SymbolNear(symbols: seq<Symbol>, p: Position) {
    exists k :: 0 <= k < |symbols| && symbols[k].pos in Neighbours(p)
  }

  predicate IsPartNumber(n: Number, symbols: seq<Symbol>) {
    exists i :: 0 <= i < |n.digits| && SymbolNear(symbols, DigitCell(n, i))
  }

  /** A part number is one with a symbol diagonally, horizontally or vertically next to
      one of its digits. */
  lemma {:induction false} PartNumberTouches(n: Number, symbols: seq<Symbol>)
    ensures IsPartNumber(n, symbols) <==>
      exists i, k :: 0 <= i < |n.digits| && 0 <= k < |symbols| && Adjacent(DigitCell(n, i), symbols[k].pos)
  {
    forall i, k | 0 <= i < |n.digits| && 0 <= k < |symbols|
      ensures symbols[k].pos in Neighbours(DigitCell(n, i)) <==> Adjacent(DigitCell(n, i), symbols[k].pos)
    {
      NeighboursAdjacent(DigitCell(n, i), symbols[k].pos);
    }
    if IsPartNumber(n, symbols) {
      var i :| 0 <= i < |n.digits| && SymbolNear(symbols, DigitCell(n, i));
      var k :| 0 <= k < |symbols| && symbols[k].pos in Neighbours(DigitCell(n, i));
      assert Adjacent(DigitCell(n, i), symbols[k].pos);
    }
  }

  function AnySymbolNear(symbols: seq<Symbol>, p: Position): (r: bool)
    ensures r == SymbolNear(symbols, p)
  {
    if symbols == [] then false
    else if symbols[0].pos in Neighbours(p) then true
    else
      assert forall k :: 1 <= k < |symbols| ==> symbols[k] == symbols[1..][k - 1];
      AnySymbolNear(symbols[1..], p)
  }

  /** `Number::is_part`: the loop over the digits with its early return. */
  method IsPart(n: Number, symbols: seq<Symbol>) returns (b: bool)
    ensures b == IsPartNumber(n, symbols)
  {
    for index := 0 to |n.digits|
      invariant forall i :: 0 <= i < index ==> !SymbolNear(symbols, DigitCell(n, i))
    {
      if AnySymbolNear(symbols, DigitCell(n, index)) {
        return true;
      }
    }
    return false;
  }

  // ---------------------------------------------------------------- gears

  predicate TouchesCell(n: Number, g: Position) {
    exists i :: 0 <= i < |Cells(n)| && Cells(n)[i] in Neighbours(g)
  }

  /** The numbers with a cell in the gear's neighbourhood, in order. */
  function Touching(numbers: seq<Number>, g: Position): (r: seq<Number>)
    ensures forall n :: n in r <==> n in numbers && TouchesCell(n, g)
    ensures |r| <= |numbers|
  {
    if numbers == [] then []
    else (if TouchesCell(numbers[0], g) then [numbers[0]] else []) + Touching(numbers[1..], g)
  }

  /** `Symbol::calculate_gear_ratio`: the product of the touching numbers when there
      are exactly two of them. */
  function GearRatio(g: Symbol, numbers: seq<Number>): (r: Option<nat>)
    ensures r.Some? <==> |Touching(numbers, g.pos)| == 2
    ensures r.Some? ==> r.value == Value(Touching(numbers, g.pos)[0]) * Value(Touching(numbers, g.pos)[1])
  {
    var t := Touching(numbers, g.pos);
    if |t| == 2 then Some(Value(t[0]) * Value(t[1])) else None
  }

  /** A number touches a cell's neighbourhood exactly when one of its digits is next to
      the cell. */
  lemma {:induction false} TouchesAdjacent(n: Number, g: Position)
    ensures TouchesCell(n, g) <==>
      exists i :: 0 <= i < |n.digits| && Adjacent(g, DigitCell(n, i))
  {
    forall i | 0 <= i < |n.digits|
      ensures Cells(n)[i] in Neighbours(g) <==> Adjacent(g, DigitCell(n, i))
    {
      NeighboursAdjacent(g, Cells(n)[i]);
    }
  }

  // ---------------------------------------------------------------- the scanner

  predicate IsSymbolChar(c: char) {
    !IsAsciiDigit(c) && c != '.'
  }

  function TrailingDigits(s: string): (r: nat)
    ensures r <= |s|
  {
    if s == [] || !IsAsciiDigit(s[|s| - 1]) then 0 else TrailingDigits(s[..|s| - 1]) + 1
  }

  lemma {:induction false} TrailingDigitsSpec(s: string)
    ensures AllDigits(s[|s| - TrailingDigits(s)..])
    ensures TrailingDigits(s) < |s| ==> !IsAsciiDigit(s[|s| - TrailingDigits(s) - 1])
  {
    if s != [] && IsAsciiDigit(s[|s| - 1]) {
      var init := s[..|s| - 1];
      TrailingDigitsSpec(init);
      var t := TrailingDigits(init);
      assert s[|s| - (t + 1)..] == init[|init| - t..] + [s[|s| - 1]];
    }
  }

  /** The numbers of line `y` read so far (`s` is a prefix of the line): the numbers
      before its trailing digits, then those digits. */
  function LineNumbers(s: string, y: int): seq<Number>
    decreases |s|
  {
    if s == [] then []
    else if !IsAsciiDigit(s[|s| - 1]) then LineNumbers(s[..|s| - 1], y)
    else
      var n := TrailingDigits(s);
      LineNumbers(s[..|s| - n], y) + [Number(s[|s| - n..], Position(|s| - n, y))]
  }

  function LineSymbols(s: string, y: int): seq<Symbol>
    decreases |s|
  {
    if s == [] then []
    else
      var c := s[|s| - 1];
      LineSymbols(s[..|s| - 1], y) + (if IsSymbolChar(c) then [Symbol(c == '*', Position(|s| - 1, y))] else [])
  }

  lemma {:induction false} LineNumbersSplit(s: string, y: int)
    ensures LineNumbers(s, y) == LineNumbers(s[..|s| - TrailingDigits(s)], y) +
      (if TrailingDigits(s) > 0 then [Number(s[|s| - TrailingDigits(s)..], Position(|s| - TrailingDigits(s), y))] else [])
  {
    if TrailingDigits(s) == 0 {
      assert s[..|s|] == s;
    }
  }

  /** Every number listed is a maximal run of digits of the line, at its own column. */
  lemma {:induction false} LineNumbersMaximal(s: string, y: int, k: nat)
    requires k < |LineNumbers(s, y)|
    ensures MaximalRun(s, LineNumbers(s, y)[k], y)
    decreases |s|
  {
    var init := s[..|s| - 1];
    if !IsAsciiDigit(s[|s| - 1]) {
      LineNumbersMaximal(init, y, k);
      MaximalRunExtends(init, s, LineNumbers(s, y)[k], y);
    } else {
      var n := TrailingDigits(s);
      var p := s[..|s| - n];
      TrailingDigitsSpec(s);
      var ns := LineNumbers(s, y);
      if k < |ns| - 1 {
        assert ns[k] == LineNumbers(p, y)[k];
        LineNumbersMaximal(p, y, k);
        var m := ns[k];
        assert |p| > 0 && p[|p| - 1] == s[|s| - n - 1];
        assert m.digits[|m.digits| - 1] == p[m.pos.x + |m.digits| - 1];
        assert m.pos.x + |m.digits| < |p|;
        MaximalRunExtends(p, s, m, y);
      }
    }
  }

  /** Every maximal run of digits of the line is listed, at its own column. */
  lemma {:induction false} LineNumbersComplete(s: string, y: int, m: Number)
    requires MaximalRun(s, m, y)
    ensures m in LineNumbers(s, y)
    decreases |s|
  {
    var end := m.pos.x + |m.digits|;
    assert m.digits[|m.digits| - 1] == s[end - 1];
    if !IsAsciiDigit(s[|s| - 1]) {
      var init := s[..|s| - 1];
      assert end <= |init|;
      assert init[m.pos.x..end] == s[m.pos.x..end];
      LineNumbersComplete(init, y, m);
    } else {
      var n := TrailingDigits(s);
      var p := s[..|s| - n];
      TrailingDigitsSpec(s);
      LineNumbersSplit(s, y);
      forall i | |s| - n <= i < |s|
        ensures IsAsciiDigit(s[i])
      {
        assert s[i] == s[|s| - n..][i - (|s| - n)];
      }
      forall i | m.pos.x <= i < end
        ensures IsAsciiDigit(s[i])
      {
        assert s[i] == m.digits[i - m.pos.x];
      }
      if end == |s| {
        assert m.pos.x == |s| - n;
        assert m == Number(s[|s| - n..], Position(|s| - n, y));
      } else {
        assert end < |s| - n;
        assert p[m.pos.x..end] == s[m.pos.x..end];
        LineNumbersComplete(p, y, m);
      }
    }
  }

  /** `m` is a maximal digit run of `line`, recorded at its first column on line `y`. */
  predicate MaximalRun(line: string, m: Number, y: int) {
    m.pos.y == y && 0 <= m.pos.x && m.pos.x + |m.digits| <= |line| && |m.digits| > 0 &&
    m.digits == line[m.pos.x..m.pos.x + |m.digits|] && AllDigits(m.digits) &&
    (m.pos.x == 0 || !IsAsciiDigit(line[m.pos.x - 1])) &&
    (m.pos.x + |m.digits| == |line| || !IsAsciiDigit(line[m.pos.x + |m.digits|]))
  }

  lemma {:induction false} MaximalRunExtends(p: string, s: string, m: Number, y: int)
    requires p <= s && MaximalRun(p, m, y)
    requires m.pos.x + |m.digits| == |p| ==> |p| == |s| || !IsAsciiDigit(s[|p|])
    ensures MaximalRun(s, m, y)
  {
    assert s[m.pos.x..m.pos.x + |m.digits|] == p[m.pos.x..m.pos.x + |m.digits|];
  }

  /** A symbol is listed exactly at each character that is neither a digit nor '.', and
      it is a gear exactly when that character is '*'. */
  lemma {:induction false} LineSymbolsExact(s: string, y: int, sym: Symbol)
    ensures sym in LineSymbols(s, y) <==>
      sym.pos.y == y && 0 <= sym.pos.x < |s| && IsSymbolChar(s[sym.pos.x]) && sym.isGear == (s[sym.pos.x] == '*')
    decreases |s|
  {
    if s != [] {
      var init := s[..|s| - 1];
      LineSymbolsExact(init, y, sym);
      if 0 <= sym.pos.x < |init| {
        assert s[sym.pos.x] == init[sym.pos.x];
      }
    }
  }

  /** What the line scanner knows after reading the prefix `p`: the symbols so far,
      the pending digits `curr` (the prefix's trailing digits) and their start, and the
      numbers that ended before them. */
  ghost predicate ScanState(p: string, y: int, numbers: seq<Number>, symbols: seq<Symbol>, curr: string, currPos: Position) {
    symbols == LineSymbols(p, y) && |curr| == TrailingDigits(p) && curr == p[|p| - |curr|..] &&
    currPos == Position(|p| - |curr|, y) && numbers == LineNumbers(p[..|p| - |curr|], y)
  }

  lemma {:induction false} ScanDigit(p: string, c: char, y: int, numbers: seq<Number>, symbols: seq<Symbol>, curr: string, currPos: Position)
    requires IsAsciiDigit(c) && ScanState(p, y, numbers, symbols, curr, currPos)
    ensures ScanState(p + [c], y, numbers, symbols, curr + [c], currPos)
  {
    assert (p + [c])[..|p|] == p;
    assert (p + [c])[..|p| + 1 - (|curr| + 1)] == p[..|p| - |curr|];
  }

  lemma {:induction false} ScanOther(p: string, c: char, y: int, numbers: seq<Number>, symbols: seq<Symbol>, curr: string, currPos: Position)
    requires !IsAsciiDigit(c) && ScanState(p, y, numbers, symbols, curr, currPos)
    ensures ScanState(p + [c], y, numbers + (if curr != "" then [Number(curr, currPos)] else []),
      symbols + (if c != '.' then [Symbol(c == '*', Position(|p|, y))] else []), "", Position(|p| + 1, y))
  {
    assert (p + [c])[..|p|] == p;
    assert (p + [c])[..|p| + 1] == p + [c];
    LineNumbersSplit(p, y);
  }

  lemma {:induction false} ScanEnd(line: string, y: int, numbers: seq<Number>, symbols: seq<Symbol>, curr: string, currPos: Position)
    requires ScanState(line, y, numbers, symbols, curr, currPos)
    ensures numbers + (if curr != "" then [Number(curr, currPos)] else []) == LineNumbers(line, y)
  {
    LineNumbersSplit(line, y);
  }

  /** One character of the line scan at column `j`: a digit joins the pending number;
      any other character ends the pending number and, unless it is '.', is a symbol. */
  method ScanChar(line: string, j: nat, y: int, numbers: seq<Number>, symbols: seq<Symbol>,
                  curr: string, currPos: Position)
    returns (numbers': seq<Number>, symbols': seq<Symbol>, curr': string, currPos': Position)
    requires j < |line| && ScanState(line[..j], y, numbers, symbols, curr, currPos)
    ensures ScanState(line[..j + 1], y, numbers', symbols', curr', currPos')
  {
    ghost var p := line[..j];
    var c := line[j];
    assert line[..j + 1] == p + [c];
    numbers', symbols', curr', currPos' := numbers, symbols, curr, currPos;
    if IsAsciiDigit(c) {
      ScanDigit(p, c, y, numbers, symbols, curr, currPos);
      curr' := curr + [c];
    } else {
      ScanOther(p, c, y, numbers, symbols, curr, currPos);
      if c != '.' {
        symbols' := symbols + [Symbol(c == '*', Position(j, y))];
      }
      if curr != "" {
        numbers' := numbers + [Number(curr, currPos)];
        curr' := "";
      }
      currPos' := Position(j + 1, y);
    }
  }

  /** The loop over one line, one character at a time; a number still pending at the
      end of the line is kept. */
  method ScanLine(line: string, y: int) returns (numbers: seq<Number>, symbols: seq<Symbol>)
    ensures numbers == LineNumbers(line, y) && symbols == LineSymbols(line, y)
  {
    numbers, symbols := [], [];
    var curr: string := "";
    var currPos := Position(0, y);
    for j := 0 to |line|
      invariant ScanState(line[..j], y, numbers, symbols, curr, currPos)
    {
      numbers, symbols, curr, currPos := ScanChar(line, j, y, numbers, symbols, curr, currPos);
    }
    assert line[..|line|] == line;
    ScanEnd(line, y, numbers, symbols, curr, currPos);
    if curr != "" {
      numbers := numbers + [Number(curr, currPos)];
    }
  }

  function AllNumbers(lines: seq<string>): seq<Number> {
    if lines == [] then []
    else AllNumbers(lines[..|lines| - 1]) + LineNumbers(lines[|lines| - 1], |lines| - 1)
  }

  function AllSymbols(lines: seq<string>): seq<Symbol> {
    if lines == [] then []
    else AllSymbols(lines[..|lines| - 1]) + LineSymbols(lines[|lines| - 1], |lines| - 1)
  }

  /** The scan of the whole schematic, line by line. */
  method Scan(lines: seq<string>) returns (numbers: seq<Number>, symbols: seq<Symbol>)
    ensures numbers == AllNumbers(lines) && symbols == AllSymbols(lines)
  {
    numbers, symbols := [], [];
    for y := 0 to |lines|
      invariant numbers == AllNumbers(lines[..y]) && symbols == AllSymbols(lines[..y])
    {
      var ns, ss := ScanLine(lines[y], y);
      assert lines[..y + 1][..y] == lines[..y];
      numbers := numbers + ns;
      symbols := symbols + ss;
    }
    assert lines[..|lines|] == lines;
  }

  /** Every scanned number is a non-empty string of digits. */
  lemma {:induction false} ScannedNumbersAreDigits(lines: seq<string>)
    ensures forall k :: 0 <= k < |AllNumbers(lines)| ==>
      AllDigits(AllNumbers(lines)[k].digits) && |AllNumbers(lines)[k].digits| > 0
  {
    if lines != [] {
      var init := lines[..|lines| - 1];
      var last := LineNumbers(lines[|lines| - 1], |lines| - 1);
      ScannedNumbersAreDigits(init);
      forall k | 0 <= k < |AllNumbers(lines)|
        ensures AllDigits(AllNumbers(lines)[k].digits) && |AllNumbers(lines)[k].digits| > 0
      {
        if k >= |AllNumbers(init)| {
          LineNumbersMaximal(lines[|lines| - 1], |lines| - 1, k - |AllNumbers(init)|);
        }
      }
    }
  }

  // ---------------------------------------------------------------- the two parts

  function PartNumbers(numbers: seq<Number>, symbols: seq<Symbol>): (r: seq<Number>)
    ensures forall n :: n in r <==> n in numbers && IsPartNumber(n, symbols)
  {
    if numbers == [] then []
    else (if IsPartNumber(numbers[0], symbols) then [numbers[0]] else []) + PartNumbers(numbers[1..], symbols)
  }

  function SumValues(numbers: seq<Number>): nat {
    if numbers == [] then 0 else Value(numbers[0]) + SumValues(numbers[1..])
  }

  /** The sum of the gear ratios of the gears (`filter_map` then `sum`). */
  function SumRatios(symbols: seq<Symbol>, parts: seq<Number>): nat {
    if symbols == [] then 0
    else
      var here := if symbols[0].isGear then GearRatio(symbols[0], parts) else None;
      (if here.Some? then here.value else 0) + SumRatios(symbols[1..], parts)
  }

  /** Numbers next to no symbol add nothing. */
  lemma {:induction false} PartSumBound(numbers: seq<Number>, symbols: seq<Symbol>)
    ensures SumValues(PartNumbers(numbers, symbols)) <= SumValues(numbers)
  {
    if numbers != [] {
      PartSumBound(numbers[1..], symbols);
      var rest := PartNumbers(numbers[1..], symbols);
      if IsPartNumber(numbers[0], symbols) {
        assert ([numbers[0]] + rest)[1..] == rest;
      } else {
        assert [] + rest == rest;
      }
    }
  }

  /** Without symbols there are no part numbers. */
  lemma {:induction false} NoSymbolsNoParts(numbers: seq<Number>)
    ensures PartNumbers(numbers, []) == []
  {
    if numbers != [] {
      NoSymbolsNoParts(numbers[1..]);
      assert !IsPartNumber(numbers[0], []);
    }
  }

  /** A symbol that is not '*' never contributes a ratio. */
  lemma {:induction false} OnlyGearsCount(symbols: seq<Symbol>, parts: seq<Number>)
    requires forall k :: 0 <= k < |symbols| ==> !symbols[k].isGear
    ensures SumRatios(symbols, parts) == 0
  {
    if symbols != [] {
      OnlyGearsCount(symbols[1..], parts);
    }
  }

  method SumPartNumbers(numbers: seq<Number>, symbols: seq<Symbol>) returns (total: nat)
    ensures total == SumValues(PartNumbers(numbers, symbols))
  {
    total := 0;
    var k := |numbers|;
    while k > 0
      invariant 0 <= k <= |numbers|
      invariant total == SumValues(PartNumbers(numbers[k..], symbols))
    {
      k := k - 1;
      var part := IsPart(numbers[k], symbols);
      var rest := PartNumbers(numbers[k + 1..], symbols);
      assert numbers[k..][0] == numbers[k] && numbers[k..][1..] == numbers[k + 1..];
      if part {
        assert PartNumbers(numbers[k..], symbols) == [numbers[k]] + rest;
        assert ([numbers[k]] + rest)[1..] == rest;
        assert SumValues([numbers[k]] + rest) == Value(numbers[k]) + SumValues(rest);
        total := total + Value(numbers[k]);
      } else {
        assert PartNumbers(numbers[k..], symbols) == [] + rest;
        assert [] + rest == rest;
      }
    }
  }

  method PartOne(input: string) returns (r: nat)
    ensures r == SumValues(PartNumbers(AllNumbers(Lines(input)), AllSymbols(Lines(input))))
  {
    var numbers, symbols := Scan(Lines(input));
    r := SumPartNumbers(numbers, symbols);
  }

  /** `part_two`: the same scan, then the ratios of the gears among the symbols,
      measured against the part numbers. */
  method PartTwo(input: string) returns (r: nat)
    ensures r == SumRatios(AllSymbols(Lines(input)), PartNumbers(AllNumbers(Lines(input)), AllSymbols(Lines(input))))
  {
    var numbers, symbols := Scan(Lines(input));
    r := SumRatios(symbols, PartNumbers(numbers, symbols));
  }
}
