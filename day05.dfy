/** Day 5: the seed almanac. Each block of the almanac is a group of range mappings;
    a seed's location is its number sent through every group in turn. */
module Day05Almanac {
  import opened Prelude

  /** One mapping line: `range_length` values starting at `src_range_start` are sent
      to the same offsets from `dest_range_start`. */
  datatype Mapping = Mapping(dest: nat, src: nat, len: nat)

  type Group = seq<Mapping>

  predicate Contains(m: Mapping, v: nat) {
    m.src <= v && m.src + m.len > v
  }

  /** `iter().find(..)`: the first mapping of the group whose source range holds `v`. */
  function FindMapping(group: Group, v: nat): (r: Option<nat>)
    ensures r.Some? ==> (r.value < |group| && Contains(group[r.value], v) &&
                         forall k :: 0 <= k < r.value ==> !Contains(group[k], v))
    ensures r.None? ==> forall k :: 0 <= k < |group| ==> !Contains(group[k], v)
  {
    if group == [] then None
    else if Contains(group[0], v) then Some(0)
    else match FindMapping(group[1..], v)
      case None => None
      case Some(k) => Some(k + 1)
  }

  /** `get_mapped_value`. */
  function MappedValue(group: Group, v: nat): nat {
    match FindMapping(group, v)
    case None => v
    case Some(k) => group[k].dest + (v - group[k].src)
  }

  /** A value outside every source range is sent to itself. */
  lemma {:induction false} MappedOutside(group: Group, v: nat)
    requires forall k :: 0 <= k < |group| ==> !Contains(group[k], v)
    ensures MappedValue(group, v) == v
  {
  }

  /** The first mapping in list order whose range holds the value decides, and it keeps
      the value's offset inside the range. */
  lemma {:induction false} MappedByFirst(group: Group, v: nat, k: nat)
    requires k < |group| && Contains(group[k], v)
    requires forall i :: 0 <= i < k ==> !Contains(group[i], v)
    ensures MappedValue(group, v) == group[k].dest + (v - group[k].src)
    ensures MappedValue(group, v) - group[k].dest == v - group[k].src
  {
  }

  /** A value's image through all groups, in block order. */
  function Location(groups: seq<Group>, v: nat): nat
    decreases |groups|
  {
    if groups == [] then v else Location(groups[1..], MappedValue(groups[0], v))
  }

  lemma {:induction false} LocationAppend(a: seq<Group>, b: seq<Group>, v: nat)
    ensures Location(a + b, v) == Location(b, Location(a, v))
    decreases |a|
  {
    if a == [] {
      assert a + b == b;
    } else {
      assert (a + b)[1..] == a[1..] + b;
      LocationAppend(a[1..], b, MappedValue(a[0], v));
    }
  }

  /** The per-seed loop: `curr_value` is sent through each group in turn. */
  method SeedLocation(groups: seq<Group>, seed: nat) returns (v: nat)
    ensures v == Location(groups, seed)
  {
    v := seed;
    var i := 0;
    while i < |groups|
      invariant 0 <= i <= |groups|
      invariant v == Location(groups[..i], seed)
    {
      LocationAppend(groups[..i], [groups[i]], seed);
      assert groups[..i + 1] == groups[..i] + [groups[i]];
      assert Location([groups[i]], v) == Location([], MappedValue(groups[i], v));
      v := MappedValue(groups[i], v);
      i := i + 1;
    }
    assert groups[..|groups|] == groups;
  }

  /** An almanac without any mapping block leaves every seed where it is. */
  lemma {:induction false} NoGroups(v: nat)
    ensures Location([], v) == v
  {
  }

  /** `min_by_key(|x| x.1)` over the seeds' locations, then `.1`: the least location;
      no seed at all makes `unwrap` panic (None). */
  function MinLocation(groups: seq<Group>, seeds: seq<nat>): (r: Option<nat>)
    ensures r.None? <==> seeds == []
    ensures r.Some? ==> ((exists i :: 0 <= i < |seeds| && r.value == Location(groups, seeds[i])) &&
                         forall i :: 0 <= i < |seeds| ==> r.value <= Location(groups, seeds[i]))
  {
    if seeds == [] then None
    else
      var here := Location(groups, seeds[0]);
      match MinLocation(groups, seeds[1..])
      case None => Some(here)
      case Some(rest) =>
        assert forall i :: 1 <= i < |seeds| ==> seeds[i] == seeds[1..][i - 1];
        if rest < here then Some(rest) else Some(here)
  }

  // ---------------------------------------------------------------- seed ranges

  /** `chunks(2)` then `(0..len).map(|i| start + i)`: each pair (start, len) stands for
      the seeds start .. start + len - 1. A trailing single number makes `chunk[1]`
      go out of bounds (None). */
  function ExpandPairs(numbers: seq<nat>): (r: Option<seq<nat>>)
    ensures r.None? <==> |numbers| % 2 == 1
    decreases |numbers|
  {
    if numbers == [] then Some([])
    else if |numbers| == 1 then None
    else match ExpandPairs(numbers[2..])
      case None => None
      case Some(rest) => Some(RangeFrom(numbers[0], numbers[1]) + rest)
  }

  function RangeFrom(start: nat, len: nat): (r: seq<nat>)
    ensures |r| == len && forall i :: 0 <= i < len ==> r[i] == start + i
  {
    seq(len, i requires 0 <= i < len => start + i)
  }

  /** `x` lies in one of the (start, length) ranges of the seed line. */
  ghost predicate InPairs(numbers: seq<nat>, x: nat) {
    exists k :: 0 <= k < |numbers| / 2 && numbers[2 * k] <= x < numbers[2 * k] + numbers[2 * k + 1]
  }

  /** The ranges of a seed line are its first range and those of the rest. */
  lemma {:induction false} InPairsCons(numbers: seq<nat>, x: nat)
    requires |numbers| >= 2
    ensures InPairs(numbers, x) <==>
      (numbers[0] <= x < numbers[0] + numbers[1]) || InPairs(numbers[2..], x)
  {
    var tail := numbers[2..];
    if InPairs(numbers, x) {
      var k :| 0 <= k < |numbers| / 2 && numbers[2 * k] <= x < numbers[2 * k] + numbers[2 * k + 1];
      if k > 0 {
        assert tail[2 * (k - 1)] == numbers[2 * k] && tail[2 * (k - 1) + 1] == numbers[2 * k + 1];
        assert 0 <= k - 1 < |tail| / 2;
      }
    }
    if InPairs(tail, x) {
      var k' :| 0 <= k' < |tail| / 2 && tail[2 * k'] <= x < tail[2 * k'] + tail[2 * k' + 1];
      assert numbers[2 * (k' + 1)] == tail[2 * k'] && numbers[2 * (k' + 1) + 1] == tail[2 * k' + 1];
    }
  }

  /** A seed belongs to the expansion exactly when it lies in one of the pairs' ranges. */
  lemma {:induction false} ExpandPairsMembers(numbers: seq<nat>, x: nat)
    requires |numbers| % 2 == 0
    ensures ExpandPairs(numbers).Some?
    ensures x in ExpandPairs(numbers).value <==> InPairs(numbers, x)
    decreases |numbers|
  {
    if numbers != [] {
      var tail := numbers[2..];
      ExpandPairsMembers(tail, x);
      InPairsCons(numbers, x);
      var head := RangeFrom(numbers[0], numbers[1]);
      assert x in head <==> numbers[0] <= x < numbers[0] + numbers[1] by {
        if numbers[0] <= x < numbers[0] + numbers[1] {
          assert head[x - numbers[0]] == x;
        }
      }
      var rest := ExpandPairs(tail).value;
      assert ExpandPairs(numbers).value == head + rest;
      assert (x in head + rest) <==> (x in head || x in rest);
    } else {
      assert !InPairs(numbers, x);
    }
  }

  /** The expansion holds exactly the sum of the pair lengths many seeds. */
  lemma {:induction false} ExpandPairsLength(numbers: seq<nat>)
    requires |numbers| % 2 == 0
    ensures ExpandPairs(numbers).Some? && |ExpandPairs(numbers).value| == PairLengths(numbers)
    decreases |numbers|
  {
    if numbers != [] {
      ExpandPairsLength(numbers[2..]);
    }
  }

  function PairLengths(numbers: seq<nat>): nat
    decreases |numbers|
  {
    if |numbers| < 2 then 0 else numbers[1] + PairLengths(numbers[2..])
  }

  // ---------------------------------------------------------------- parsing

  /** A mapping line: exactly three space-separated numbers, otherwise a panic. */
  function ParseMapping(line: string): (r: Option<Mapping>)
    ensures r.Some? ==> ParseNats(SplitChar(line, ' ')) == Some([r.value.dest, r.value.src, r.value.len])
  {
    match ParseNats(SplitChar(line, ' '))
    case None => None
    case Some(ns) =>
      if |ns| != 3 then None
      else
        assert ns == [ns[0], ns[1], ns[2]];
        Some(Mapping(ns[0], ns[1], ns[2]))
  }

  function ParseMappings(lines: seq<string>): (r: Option<Group>)
    ensures r.Some? ==> |r.value| == |lines|
  {
    if lines == [] then Some([])
    else match (ParseMapping(lines[0]), ParseMappings(lines[1..]))
      case (Some(m), Some(ms)) => Some([m] + ms)
      case _ => None
  }

  /** A block: its first line is the heading, every other line a mapping. */
  function ParseGroup(block: string): Option<Group> {
    var lines := Lines(block);
    ParseMappings(if lines == [] then [] else lines[1..])
  }

  function ParseGroups(blocks: seq<string>): (r: Option<seq<Group>>)
    ensures r.Some? ==> |r.value| == |blocks|
  {
    if blocks == [] then Some([])
    else match (ParseGroup(blocks[0]), ParseGroups(blocks[1..]))
      case (Some(g), Some(gs)) => Some([g] + gs)
      case _ => None
  }

  /** The first line: the numbers after the last ':'. No line at all panics. */
  function ParseSeeds(input: string): Option<seq<nat>> {
    var lines := Lines(input);
    if lines == [] then None
    else
      var parts := SplitChar(lines[0], ':');
      ParseNats(SplitChar(Trim(parts[|parts| - 1]), ' '))
  }

  /** The blocks after the first, separated by blank lines. */
  function ParseAlmanacGroups(input: string): Option<seq<Group>> {
    var blocks := Split(input, "\n\n");
    ParseGroups(blocks[1..])
  }

  /** `v` is the least location reached by any of the seeds. */
  ghost predicate LeastLocation(groups: seq<Group>, seeds: seq<nat>, v: nat) {
    (exists i :: 0 <= i < |seeds| && v == Location(groups, seeds[i]))
    && forall i :: 0 <= i < |seeds| ==> v <= Location(groups, seeds[i])
  }

  /** `part_one`: the least location of the listed seeds; no seed at all, a missing
      first line or a malformed number panics. */
  function PartOne(input: string): (r: Option<nat>)
    ensures r.Some? <==> ParseSeeds(input).Some? && ParseAlmanacGroups(input).Some? && ParseSeeds(input).value != []
    ensures r.Some? ==> LeastLocation(ParseAlmanacGroups(input).value, ParseSeeds(input).value, r.value)
  {
    match (ParseSeeds(input), ParseAlmanacGroups(input))
    case (Some(seeds), Some(groups)) => MinLocation(groups, seeds)
    case _ => None
  }

  /** `part_two`: the seed line read as (start, length) pairs; an odd count panics. */
  function PartTwo(input: string): (r: Option<nat>)
    ensures r.Some? ==> ParseSeeds(input).Some? && |ParseSeeds(input).value| % 2 == 0 && ParseAlmanacGroups(input).Some?
  {
    match (ParseSeeds(input), ParseAlmanacGroups(input))
    case (Some(numbers), Some(groups)) =>
      (match ExpandPairs(numbers)
       case None => None
       case Some(seeds) => MinLocation(groups, seeds))
    case _ => None
  }

  /** Part two's answer is the least location over every seed of every range, and it
      is missing only when the ranges hold no seed at all. */
  lemma {:induction false} PartTwoLeast(input: string)
    requires ParseSeeds(input).Some? && |ParseSeeds(input).value| % 2 == 0 && ParseAlmanacGroups(input).Some?
    ensures var numbers, groups := ParseSeeds(input).value, ParseAlmanacGroups(input).value;
      PartTwo(input).None? <==> forall x: nat :: !InPairs(numbers, x)
    ensures var numbers, groups := ParseSeeds(input).value, ParseAlmanacGroups(input).value;
      PartTwo(input).Some? ==>
        (exists x: nat :: InPairs(numbers, x) && PartTwo(input).value == Location(groups, x))
        && forall x: nat :: InPairs(numbers, x) ==> PartTwo(input).value <= Location(groups, x)
  {
    var numbers, groups := ParseSeeds(input).value, ParseAlmanacGroups(input).value;
    var seeds := ExpandPairs(numbers).value;
    forall x: nat ensures x in seeds <==> InPairs(numbers, x) {
      ExpandPairsMembers(numbers, x);
    }
    if PartTwo(input).Some? {
      var v := PartTwo(input).value;
      var i :| 0 <= i < |seeds| && v == Location(groups, seeds[i]);
      assert InPairs(numbers, seeds[i]);
      forall x: nat | InPairs(numbers, x) ensures v <= Location(groups, x) {
        var j :| 0 <= j < |seeds| && seeds[j] == x;
      }
    } else {
      assert seeds == [];
      forall x: nat ensures !InPairs(numbers, x) {
        assert x !in seeds;
      }
    }
  }
}
