/** Day 6: boat races. Holding the button for `h` of a race's `t` milliseconds moves
    the boat `h * (t - h)` millimetres; a hold wins when it beats the record. */
module Day06Races {
  import opened Prelude

  // ---------------------------------------------------------------- parsing

  /** The last piece of `split(':')`, that is, the text after the last colon. */
  function AfterLastColon(line: string): string {
    var parts := SplitChar(line, ':');
    parts[|parts| - 1]
  }

  /** One line of `parse_races`: the numbers after the colon, separated by runs of
      whitespace; a piece that is not a number panics (None). */
  function LineNumbers(line: string): Option<seq<nat>> {
    ParseNats(SplitChar(CollapseWhitespace(Trim(AfterLastColon(line))), ' '))
  }

  function LinesNumbers(lines: seq<string>): (r: Option<seq<seq<nat>>>)
    ensures r.Some? ==> |r.value| == |lines|
    ensures r.Some? ==> forall i :: 0 <= i < |lines| ==> LineNumbers(lines[i]) == Some(r.value[i])
  {
    if lines == [] then Some([])
    else match (LineNumbers(lines[0]), LinesNumbers(lines[1..]))
      case (Some(n), Some(ns)) => Some([n] + ns)
      case _ => None
  }

  /** `zip`: pairs up to the shorter of the two lists. */
  function Zip(a: seq<nat>, b: seq<nat>): (r: seq<(nat, nat)>)
    ensures |r| == if |a| <= |b| then |a| else |b|
    ensures forall i :: 0 <= i < |r| ==> r[i] == (a[i], b[i])
  {
    if a == [] || b == [] then [] else [(a[0], b[0])] + Zip(a[1..], b[1..])
  }

  /** `parse_races`: the first line's numbers are the times, the last line's the
      records. No line at all, or an unparsable number, panics (None). */
  function ParseRaces(input: string): (r: Option<seq<(nat, nat)>>)
    ensures r.Some? ==> |Lines(input)| > 0
  {
    match LinesNumbers(Lines(input))
    case None => None
    case Some(numbers) =>
      if numbers == [] then None else Some(Zip(numbers[0], numbers[|numbers| - 1]))
  }

  /** One line of `parse_races_alt`: the text after the colon with every ' ' removed,
      read as one number; anything else panics (None). */
  function AltNumber(line: string): Option<nat> {
    ParseNat(Remove(AfterLastColon(line), ' '))
  }

  /** The `collect` of `parse_races_alt`: every line is read, in order, and a line that
      is not a number panics even when it is neither the first nor the last. */
  function AltNumbers(lines: seq<string>): (r: Option<seq<nat>>)
    ensures r.Some? <==> forall i :: 0 <= i < |lines| ==> AltNumber(lines[i]).Some?
    ensures r.Some? ==> |r.value| == |lines|
    ensures r.Some? ==> forall i :: 0 <= i < |lines| ==> AltNumber(lines[i]) == Some(r.value[i])
  {
    if lines == [] then Some([])
    else match (AltNumber(lines[0]), AltNumbers(lines[1..]))
      case (Some(n), Some(ns)) => Some([n] + ns)
      case (None, _) => None
      case (_, None) =>
        assert !(forall i :: 0 <= i < |lines[1..]| ==> AltNumber(lines[1..][i]).Some?);
        None
  }

  /** `parse_races_alt`: every line must be one number; the first line's is the time
      and the last line's the record. No line at all panics (None). */
  function ParseRaceAlt(input: string): (r: Option<(nat, nat)>)
    ensures r.Some? <==> |Lines(input)| > 0 && forall i :: 0 <= i < |Lines(input)| ==> AltNumber(Lines(input)[i]).Some?
    ensures r.Some? ==> r.value == (AltNumber(Lines(input)[0]).value, AltNumber(Lines(input)[|Lines(input)| - 1]).value)
  {
    var lines := Lines(input);
    match AltNumbers(lines)
    case None => None
    case Some(numbers) =>
      if numbers == [] then None else Some((numbers[0], numbers[|numbers| - 1]))
  }

  // ---------------------------------------------------------------- distances

  /** `calc_distance`: the hold may not exceed the race time. */
  function Distance(hold: nat, time: nat): nat
    requires hold <= time
  {
    hold * (time - hold)
  }

  /** Holding for nothing or for the whole race goes nowhere; holding `h` goes as far
      as holding `t - h`. */
  lemma {:induction false} DistanceSymmetric(hold: nat, time: nat)
    requires hold <= time
    ensures Distance(hold, time) == Distance(time - hold, time)
    ensures Distance(0, time) == 0 && Distance(time, time) == 0
  {
  }

  /** Moving the hold towards the middle never shortens the distance. */
  lemma {:induction false} DistanceTowardsMiddle(h: nat, h': nat, time: nat)
    requires h <= h' <= time - h
    ensures Distance(h, time) <= Distance(h', time)
  {
    var a := h' - h;
    assert Distance(h', time) - Distance(h, time) == a * (time - h - h') by {
      calc {
        Distance(h', time) - Distance(h, time);
        (h + a) * (time - h - a) - h * (time - h);
        h * (time - h - a) + a * (time - h - a) - h * (time - h);
        { assert h * (time - h - a) == h * (time - h) - h * a; }
        a * (time - h - a) - h * a;
        { assert a * (time - h - a) - h * a == a * (time - h - a - h); }
        a * (time - h - h');
      }
    }
    assert a * (time - h - h') >= 0;
  }

  predicate Wins(hold: nat, time: nat, record: nat)
    requires hold <= time
  {
    Distance(hold, time) > record
  }

  /** The holds `from ..= time` whose distance beats the record, counted. */
  function CountFrom(from: nat, time: nat, record: nat): (n: nat)
    ensures n <= time + 1 - from || from > time
    ensures from > time ==> n == 0
    decreases time + 1 - from
  {
    if from > time then 0
    else (if Wins(from, time, record) then 1 else 0) + CountFrom(from + 1, time, record)
  }

  /** The number of winning holds of one race, `(0..=t).filter(..).count()`. */
  function Ways(time: nat, record: nat): (n: nat)
    ensures n <= time + 1
  {
    CountFrom(0, time, record)
  }

  /** Counting a stretch that lies inside [lo, hi] where winning means exactly "between
      lo and hi" gives its length. */
  lemma {:induction false} CountFromInterval(from: nat, time: nat, record: nat, lo: nat, hi: nat)
    requires lo <= from && hi <= time
    requires forall h :: lo <= h <= time ==> (Wins(h, time, record) <==> h <= hi)
    ensures CountFrom(from, time, record) == if from <= hi then hi + 1 - from else 0
    decreases time + 1 - from
  {
    if from <= time {
      CountFromInterval(from + 1, time, record, lo, hi);
    }
  }

  /** The winning holds are exactly the interval [lo, time - lo] around the middle, so
      their number is `time + 1 - 2 * lo` where `lo` is the shortest winning hold, and
      there are none when no hold wins. */
  lemma {:induction false} WaysClosedForm(time: nat, record: nat, lo: nat)
    requires lo <= time && Wins(lo, time, record)
    requires forall h :: 0 <= h < lo ==> !Wins(h, time, record)
    ensures lo <= time - lo
    ensures Ways(time, record) == time + 1 - 2 * lo
  {
    DistanceSymmetric(lo, time);
    assert Wins(time - lo, time, record);
    forall h | lo <= h <= time
      ensures Wins(h, time, record) <==> h <= time - lo
    {
      if h <= time - lo {
        DistanceTowardsMiddle(lo, h, time);
      } else {
        DistanceSymmetric(h, time);
        assert time - h < lo;
        assert !Wins(time - h, time, record);
      }
    }
    CountPrefixZero(0, lo, time, record);
    CountFromInterval(lo, time, record, lo, time - lo);
  }

  /** Holds below `lo` that all lose add nothing to the count. */
  lemma {:induction false} CountPrefixZero(from: nat, lo: nat, time: nat, record: nat)
    requires from <= lo <= time
    requires forall h :: 0 <= h < lo ==> !Wins(h, time, record)
    ensures CountFrom(from, time, record) == CountFrom(lo, time, record)
    decreases lo - from
  {
    if from < lo {
      CountPrefixZero(from + 1, lo, time, record);
    }
  }

  /** No hold wins when even the best one does not. */
  lemma {:induction false} WaysNone(time: nat, record: nat)
    requires forall h :: 0 <= h <= time ==> !Wins(h, time, record)
    ensures Ways(time, record) == 0
  {
    CountNone(0, time, record);
  }

  lemma {:induction false} CountNone(from: nat, time: nat, record: nat)
    requires forall h :: from <= h <= time ==> !Wins(h, time, record)
    ensures CountFrom(from, time, record) == 0
    decreases time + 1 - from
  {
    if from <= time {
      CountNone(from + 1, time, record);
    }
  }

  // ---------------------------------------------------------------- answers

  function WaysProduct(races: seq<(nat, nat)>): nat {
    if races == [] then 1 else Ways(races[0].0, races[0].1) * WaysProduct(races[1..])
  }

  /** `part_one`: the product of the number of winning holds over all races. */
  function PartOne(input: string): (r: Option<nat>)
    ensures r.Some? <==> ParseRaces(input).Some?
    ensures r.Some? ==> r.value == WaysProduct(ParseRaces(input).value)
  {
    match ParseRaces(input)
    case None => None
    case Some(races) => Some(WaysProduct(races))
  }

  /** `part_two`: the winning holds of the single race read with spaces removed. */
  function PartTwo(input: string): (r: Option<nat>)
    ensures r.Some? <==> ParseRaceAlt(input).Some?
    ensures r.Some? ==> r.value <= ParseRaceAlt(input).value.0 + 1
  {
    match ParseRaceAlt(input)
    case None => None
    case Some(race) => Some(Ways(race.0, race.1))
  }
}
