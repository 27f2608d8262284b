/** Day 1: calibration values. Part one reads the first and last ASCII digit of each
    line; part two also accepts the spelled-out words "one" .. "nine". */
module Day01Calibration {
  import opened Prelude

  // ---------------------------------------------------------------- part one

  /** The ASCII digits of a line, in order (`chars().filter(is_ascii_digit)`). */
  function Digits(line: string): (r: string)
    ensures AllDigits(r)
    ensures forall c :: c in r <==> c in line && IsAsciiDigit(c)
  {
    if line == [] then []
    else (if IsAsciiDigit(line[0]) then [line[0]] else []) + Digits(line[1..])
  }

  lemma {:induction false} DigitsAppend(a: string, b: string)
    ensures Digits(a + b) == Digits(a) + Digits(b)
  {
    if a == [] {
      assert a + b == b;
    } else {
      assert (a + b)[1..] == a[1..] + b;
      DigitsAppend(a[1..], b);
    }
  }

  /** The two-digit value of one line: first digit, then last digit. A line without a
      digit makes `unwrap` panic, modelled as None. */
  function LineValue(line: string): (r: Option<nat>)
    ensures r.None? <==> forall i :: 0 <= i < |line| ==> !IsAsciiDigit(line[i])
    ensures r.Some? ==> r.value <= 99
  {
    var d := Digits(line);
    if d == [] then None else Some(10 * DigitValue(d[0]) + DigitValue(d[|d| - 1]))
  }

  lemma {:induction false} DigitsNone(s: string)
    requires forall k :: 0 <= k < |s| ==> !IsAsciiDigit(s[k])
    ensures Digits(s) == []
  {
    if s != [] {
      DigitsNone(s[1..]);
    }
  }

  lemma {:induction false} FirstDigitOf(line: string, i: nat)
    requires i < |line| && IsAsciiDigit(line[i])
    requires forall k :: 0 <= k < i ==> !IsAsciiDigit(line[k])
    ensures |Digits(line)| > 0 && Digits(line)[0] == line[i]
  {
    assert line == line[..i] + line[i..];
    DigitsAppend(line[..i], line[i..]);
    DigitsNone(line[..i]);
    assert line[i..] == [line[i]] + line[i + 1..];
    DigitsAppend([line[i]], line[i + 1..]);
  }

  lemma {:induction false} LastDigitOf(line: string, j: nat)
    requires j < |line| && IsAsciiDigit(line[j])
    requires forall k :: j < k < |line| ==> !IsAsciiDigit(line[k])
    ensures |Digits(line)| > 0 && Digits(line)[|Digits(line)| - 1] == line[j]
  {
    assert line == (line[..j] + [line[j]]) + line[j + 1..];
    DigitsAppend(line[..j] + [line[j]], line[j + 1..]);
    DigitsNone(line[j + 1..]);
    DigitsAppend(line[..j], [line[j]]);
  }

  /** The value is taken from the first digit of the line (tens) and the last digit of
      the line (units), whatever lies around or between them. */
  lemma {:induction false} LineValueFirstLast(line: string, i: nat, j: nat)
    requires i <= j < |line| && IsAsciiDigit(line[i]) && IsAsciiDigit(line[j])
    requires forall k :: 0 <= k < i ==> !IsAsciiDigit(line[k])
    requires forall k :: j < k < |line| ==> !IsAsciiDigit(line[k])
    ensures LineValue(line) == Some(10 * DigitValue(line[i]) + DigitValue(line[j]))
  {
    FirstDigitOf(line, i);
    LastDigitOf(line, j);
  }

  /** A line with a single digit uses it as both tens and units. */
  lemma {:induction false} LineValueSingleDigit(line: string, i: nat)
    requires i < |line| && IsAsciiDigit(line[i])
    requires forall k :: 0 <= k < |line| && k != i ==> !IsAsciiDigit(line[k])
    ensures LineValue(line) == Some(11 * DigitValue(line[i]))
  {
    LineValueFirstLast(line, i, i);
  }

  /** Sum of the line values; None as soon as one line has no digit. */
  function SumValues(lines: seq<string>, value: string -> Option<nat>): (r: Option<nat>)
    ensures r.Some? <==> forall i :: 0 <= i < |lines| ==> value(lines[i]).Some?
  {
    if lines == [] then Some(0)
    else match (value(lines[0]), SumValues(lines[1..], value))
      case (Some(v), Some(rest)) => Some(v + rest)
      case (None, _) => None
      case (_, None) =>
        assert exists i :: 0 <= i < |lines[1..]| && value(lines[1..][i]).None?;
        None
  }

  function PartOne(input: string): (r: Option<nat>)
    ensures r.Some? <==> forall i :: 0 <= i < |Lines(input)| ==> LineValue(Lines(input)[i]).Some?
  {
    SumValues(Lines(input), LineValue)
  }

  // ---------------------------------------------------------------- part two

  /** The 18 spellings and their values, in the source's table order. */
  const Spellings: seq<(string, nat)> := [
    ("one", 1), ("1", 1), ("two", 2), ("2", 2), ("three", 3), ("3", 3),
    ("four", 4), ("4", 4), ("five", 5), ("5", 5), ("six", 6), ("6", 6),
    ("seven", 7), ("7", 7), ("eight", 8), ("8", 8), ("nine", 9), ("9", 9)]

  /** Every value of the table is a non-zero digit. */
  predicate DigitValued(table: seq<(string, nat)>) {
    forall k :: 0 <= k < |table| ==> 1 <= table[k].1 <= 9
  }

  lemma {:induction false} SpellingsWellFormed()
    ensures |Spellings| == 18 && DigitValued(Spellings)
  {
  }

  predicate OccursAt(line: string, pat: string, i: nat) {
    i + |pat| <= |line| && line[i..i + |pat|] == pat
  }

  /** `line.find(pat)` searching from index `i`: the leftmost occurrence. */
  function FindFrom(line: string, pat: string, i: nat): (r: Option<nat>)
    ensures r.Some? ==> i <= r.value && OccursAt(line, pat, r.value)
    ensures r.Some? ==> forall k :: i <= k < r.value ==> !OccursAt(line, pat, k)
    ensures r.None? ==> forall k :: i <= k ==> !OccursAt(line, pat, k)
    decreases |line| - i
  {
    if i + |pat| > |line| then None
    else if OccursAt(line, pat, i) then Some(i)
    else FindFrom(line, pat, i + 1)
  }

  function Find(line: string, pat: string): Option<nat> {
    FindFrom(line, pat, 0)
  }

  /** `line.rfind(pat)` among start indices below `i`: the rightmost occurrence. */
  function RFindBelow(line: string, pat: string, i: nat): (r: Option<nat>)
    ensures r.Some? ==> r.value < i && OccursAt(line, pat, r.value)
    ensures r.Some? ==> forall k :: r.value < k < i ==> !OccursAt(line, pat, k)
    ensures r.None? ==> forall k: nat :: k < i ==> !OccursAt(line, pat, k)
  {
    if i == 0 then None
    else if OccursAt(line, pat, i - 1) then Some(i - 1)
    else RFindBelow(line, pat, i - 1)
  }

  function RFind(line: string, pat: string): (r: Option<nat>)
    ensures r.Some? ==> OccursAt(line, pat, r.value) && forall k: nat :: r.value < k ==> !OccursAt(line, pat, k)
    ensures r.None? ==> forall k: nat :: !OccursAt(line, pat, k)
  {
    RFindBelow(line, pat, |line| + 1)
  }

  /** A spelling is found from the left exactly when it is found from the right. */
  lemma {:induction false} FindIffRFind(line: string, pat: string)
    ensures Find(line, pat).Some? <==> RFind(line, pat).Some?
  {
    if Find(line, pat).Some? {
      var i := Find(line, pat).value;
      assert OccursAt(line, pat, i);
    }
    if RFind(line, pat).Some? {
      var j := RFind(line, pat).value;
      assert OccursAt(line, pat, j);
    }
  }

  /** `find` (from the left) or `rfind` (from the right). */
  function Locate(line: string, pat: string, fromLeft: bool): Option<nat> {
    if fromLeft then Find(line, pat) else RFind(line, pat)
  }

  /** (index, value) for every table entry found in the line, in table order (`map`
      then `filter(is_some)`). */
  function Candidates(line: string, table: seq<(string, nat)>, fromLeft: bool): seq<(nat, nat)> {
    if table == [] then []
    else
      var rest := Candidates(line, table[1..], fromLeft);
      match Locate(line, table[0].0, fromLeft)
      case Some(i) => [(i, table[0].1)] + rest
      case None => rest
  }

  /** Every candidate comes from a table entry found at that index. */
  lemma {:induction false} CandidateOrigin(line: string, table: seq<(string, nat)>, fromLeft: bool, c: (nat, nat))
    returns (k: nat)
    requires c in Candidates(line, table, fromLeft)
    ensures k < |table| && table[k].1 == c.1 && Locate(line, table[k].0, fromLeft) == Some(c.0)
  {
    var rest := Candidates(line, table[1..], fromLeft);
    if Locate(line, table[0].0, fromLeft).Some? && c == (Locate(line, table[0].0, fromLeft).value, table[0].1) {
      k := 0;
    } else {
      var k' := CandidateOrigin(line, table[1..], fromLeft, c);
      k := k' + 1;
    }
  }

  /** Every table entry that is found contributes its candidate. */
  lemma {:induction false} CandidateComplete(line: string, table: seq<(string, nat)>, fromLeft: bool, k: nat)
    requires k < |table| && Locate(line, table[k].0, fromLeft).Some?
    ensures (Locate(line, table[k].0, fromLeft).value, table[k].1) in Candidates(line, table, fromLeft)
  {
    if k > 0 {
      CandidateComplete(line, table[1..], fromLeft, k - 1);
    }
  }

  /** `min_by_key` on the index: the first entry whose index is least. */
  function MinByKey(s: seq<(nat, nat)>): (m: (nat, nat))
    requires |s| > 0
    ensures m in s && forall c :: c in s ==> m.0 <= c.0
  {
    if |s| == 1 then s[0]
    else
      var rest := MinByKey(s[1..]);
      assert forall c :: c in s ==> c == s[0] || c in s[1..];
      if rest.0 < s[0].0 then rest else s[0]
  }

  /** `max_by_key` on the index: the last entry whose index is greatest. */
  function MaxByKey(s: seq<(nat, nat)>): (m: (nat, nat))
    requires |s| > 0
    ensures m in s && forall c :: c in s ==> c.0 <= m.0
  {
    if |s| == 1 then s[0]
    else
      var rest := MaxByKey(s[1..]);
      assert forall c :: c in s ==> c == s[0] || c in s[1..];
      if rest.0 >= s[0].0 then rest else s[0]
  }

  /** `convert` over a spelling table: the value of the leftmost spelling, times ten,
      plus the value of the rightmost spelling. A line without any spelling makes
      `unwrap` panic (None). */
  function ConvertWith(line: string, table: seq<(string, nat)>): Option<nat> {
    var firsts := Candidates(line, table, true);
    var lasts := Candidates(line, table, false);
    if firsts == [] || lasts == [] then None
    else Some(MinByKey(firsts).1 * 10 + MaxByKey(lasts).1)
  }

  function Convert(line: string): Option<nat> {
    ConvertWith(line, Spellings)
  }

  predicate SpelledWith(line: string, table: seq<(string, nat)>) {
    exists k :: 0 <= k < |table| && Find(line, table[k].0).Some?
  }

  predicate Spelled(line: string) {
    SpelledWith(line, Spellings)
  }

  /** Leftmost-first among the found spellings of a table. */
  predicate LeftmostIn(line: string, table: seq<(string, nat)>, kf: nat)
    requires kf < |table|
  {
    Find(line, table[kf].0).Some? &&
    forall k :: 0 <= k < |table| && Find(line, table[k].0).Some? ==>
      Find(line, table[kf].0).value <= Find(line, table[k].0).value
  }

  /** Rightmost-last among the found spellings of a table. */
  predicate RightmostIn(line: string, table: seq<(string, nat)>, kl: nat)
    requires kl < |table|
  {
    RFind(line, table[kl].0).Some? &&
    forall k :: 0 <= k < |table| && RFind(line, table[k].0).Some? ==>
      RFind(line, table[k].0).value <= RFind(line, table[kl].0).value
  }

  lemma {:induction false} ConvertWithNone(line: string, table: seq<(string, nat)>)
    ensures ConvertWith(line, table).None? <==> !SpelledWith(line, table)
  {
    var firsts := Candidates(line, table, true);
    var lasts := Candidates(line, table, false);
    if SpelledWith(line, table) {
      var k :| 0 <= k < |table| && Find(line, table[k].0).Some?;
      FindIffRFind(line, table[k].0);
      CandidateComplete(line, table, true, k);
      CandidateComplete(line, table, false, k);
    } else if firsts != [] {
      var k := CandidateOrigin(line, table, true, firsts[0]);
    }
  }

  /** The tens digit is the value of a spelling found leftmost, the units digit that of
      a spelling whose last occurrence is rightmost. */
  lemma {:induction false} ConvertWithExtremes(line: string, table: seq<(string, nat)>) returns (kf: nat, kl: nat)
    requires SpelledWith(line, table)
    ensures kf < |table| && kl < |table|
    ensures LeftmostIn(line, table, kf) && RightmostIn(line, table, kl)
    ensures ConvertWith(line, table) == Some(table[kf].1 * 10 + table[kl].1)
  {
    ConvertWithNone(line, table);
    var firsts := Candidates(line, table, true);
    var lasts := Candidates(line, table, false);
    var f := MinByKey(firsts);
    var l := MaxByKey(lasts);
    kf := CandidateOrigin(line, table, true, f);
    kl := CandidateOrigin(line, table, false, l);
    forall k | 0 <= k < |table| && Find(line, table[k].0).Some?
      ensures Find(line, table[kf].0).value <= Find(line, table[k].0).value {
      CandidateComplete(line, table, true, k);
    }
    forall k | 0 <= k < |table| && RFind(line, table[k].0).Some?
      ensures RFind(line, table[k].0).value <= RFind(line, table[kl].0).value {
      CandidateComplete(line, table, false, k);
    }
  }

  /** Convert succeeds on a line with a spelling; the tens digit is the value of the
      leftmost spelling and the units digit that of the rightmost one, so the result
      is a two-digit number with no zero digit. */
  lemma {:induction false} ConvertPicksExtremes(line: string) returns (kf: nat, kl: nat)
    requires Spelled(line)
    ensures kf < |Spellings| && kl < |Spellings|
    ensures LeftmostIn(line, Spellings, kf) && RightmostIn(line, Spellings, kl)
    ensures Convert(line) == Some(Spellings[kf].1 * 10 + Spellings[kl].1)
    ensures 11 <= Convert(line).value <= 99 && Convert(line).value % 10 != 0
  {
    SpellingsWellFormed();
    kf, kl := ConvertWithDigits(line, Spellings);
  }

  /** With a table of non-zero digit values the result has two non-zero digits. */
  lemma {:induction false} ConvertWithDigits(line: string, table: seq<(string, nat)>) returns (kf: nat, kl: nat)
    requires SpelledWith(line, table) && DigitValued(table)
    ensures kf < |table| && kl < |table|
    ensures LeftmostIn(line, table, kf) && RightmostIn(line, table, kl)
    ensures ConvertWith(line, table) == Some(table[kf].1 * 10 + table[kl].1)
    ensures 11 <= ConvertWith(line, table).value <= 99 && ConvertWith(line, table).value % 10 != 0
  {
    kf, kl := ConvertWithExtremes(line, table);
    var tens, units := table[kf].1, table[kl].1;
    assert 1 <= tens <= 9 && 1 <= units <= 9;
    TwoDigits(tens, units);
    var v := tens * 10 + units;
    assert ConvertWith(line, table).value == v;
    assert v % 10 == units;
  }

  lemma {:induction false} TwoDigits(a: nat, b: nat)
    requires 1 <= a <= 9 && 1 <= b <= 9
    ensures 11 <= a * 10 + b <= 99 && (a * 10 + b) % 10 == b
  {
  }

  /** Convert panics exactly on the lines that contain no spelling at all. */
  lemma {:induction false} ConvertNone(line: string)
    ensures Convert(line).None? <==> !Spelled(line)
  {
    ConvertWithNone(line, Spellings);
  }

  function PartTwo(input: string): (r: Option<nat>)
    ensures r.Some? <==> forall i :: 0 <= i < |Lines(input)| ==> Convert(Lines(input)[i]).Some?
  {
    SumValues(Lines(input), Convert)
  }
}
