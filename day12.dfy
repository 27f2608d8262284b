/** Day 12: hot springs. A row of springs, some of unknown condition, is completed in
    every way whose runs of damaged springs match the checksum. */
module Day12Springs {
  import opened Prelude

  datatype State = Working | Damaged | Unknown

  /** `State::from`: '.', '#' and '?'; any other character panics. */
  function StateOf(c: char): (r: Option<State>)
    ensures r.Some? <==> c == '.' || c == '#' || c == '?'
  {
    if c == '.' then Some(Working)
    else if c == '#' then Some(Damaged)
    else if c == '?' then Some(Unknown)
    else None
  }

  // ---------------------------------------------------------------- run lengths

  /** The number of damaged springs at the end of `s`. */
  function TrailingDamaged(s: seq<State>): (r: nat)
    ensures r <= |s|
  {
    if s == [] || s[|s| - 1] != Damaged then 0 else TrailingDamaged(s[..|s| - 1]) + 1
  }

  /** The lengths of the maximal runs of damaged springs, left to right. */
  function Runs(s: seq<State>): seq<nat>
    decreases |s|
  {
    if s == [] then []
    else if s[|s| - 1] != Damaged then Runs(s[..|s| - 1])
    else
      var n := TrailingDamaged(s);
      Runs(s[..|s| - n]) + [n]
  }

  /** The runs of `s`: those before its trailing damaged springs, then that run. */
  lemma {:induction false} RunsSplit(s: seq<State>)
    ensures Runs(s) == Runs(s[..|s| - TrailingDamaged(s)]) +
      (if TrailingDamaged(s) > 0 then [TrailingDamaged(s)] else [])
  {
    if s == [] || s[|s| - 1] != Damaged {
      assert TrailingDamaged(s) == 0 && s[..|s|] == s;
    } else {
      var n := TrailingDamaged(s);
      assert n > 0 && Runs(s) == Runs(s[..|s| - n]) + [n];
    }
  }

  /** The counting loop's state at the end of a row: the last run, if any, closes. */
  lemma {:induction false} RunsClose(s: seq<State>, counter: nat, found: seq<nat>)
    requires counter == TrailingDamaged(s) && found == Runs(s[..|s| - counter])
    ensures Runs(s) == if counter > 0 then found + [counter] else found
  {
    RunsSplit(s);
  }

  lemma {:induction false} TrailingSnoc(p: seq<State>, x: State)
    ensures x == Damaged ==> TrailingDamaged(p + [x]) == TrailingDamaged(p) + 1
    ensures x != Damaged ==> TrailingDamaged(p + [x]) == 0
    ensures (p + [x])[..|p|] == p
  {
    assert (p + [x])[..|p|] == p;
  }

  /** Appending a spring: a working one changes nothing, a damaged one lengthens the
      last run or starts a new one. */
  lemma {:induction false} RunsSnoc(p: seq<State>, x: State)
    ensures x != Damaged ==> Runs(p + [x]) == Runs(p)
    ensures x == Damaged && TrailingDamaged(p) == 0 ==> Runs(p + [x]) == Runs(p) + [1]
    ensures x == Damaged && TrailingDamaged(p) > 0 ==>
      (|Runs(p)| > 0 && Runs(p + [x]) == Runs(p)[..|Runs(p)| - 1] + [Runs(p)[|Runs(p)| - 1] + 1])
  {
    TrailingSnoc(p, x);
    if x != Damaged {
      assert Runs(p + [x]) == Runs((p + [x])[..|p|]);
    } else {
      RunsSnocDamaged(p);
    }
  }

  lemma {:induction false} RunsSnocDamaged(p: seq<State>)
    ensures TrailingDamaged(p) == 0 ==> Runs(p + [Damaged]) == Runs(p) + [1]
    ensures TrailingDamaged(p) > 0 ==>
      (|Runs(p)| > 0 && Runs(p + [Damaged]) == Runs(p)[..|Runs(p)| - 1] + [Runs(p)[|Runs(p)| - 1] + 1])
  {
    RunsDamagedSnoc(p);
    RunsSplit(p);
    var t := TrailingDamaged(p);
    if t > 0 {
      DropLast(Runs(p[..|p| - t]), t);
    }
  }

  lemma {:induction false} DropLast(b: seq<nat>, n: nat)
    ensures (b + [n])[..|b|] == b && (b + [n])[|b|] == n
  {
  }

  /** A damaged spring at the end lengthens the trailing run by one. */
  lemma {:induction false} RunsDamagedSnoc(p: seq<State>)
    ensures Runs(p + [Damaged]) == Runs(p[..|p| - TrailingDamaged(p)]) + [TrailingDamaged(p) + 1]
  {
    var q := p + [Damaged];
    TrailingSnoc(p, Damaged);
    var t := TrailingDamaged(p);
    var front := p[..|p| - t];
    assert q[..|q| - (t + 1)] == front;
    RunsLastDamaged(q);
    calc {
      Runs(q);
      Runs(q[..|q| - TrailingDamaged(q)]) + [TrailingDamaged(q)];
      Runs(front) + [t + 1];
    }
  }

  lemma {:induction false} RunsLastDamaged(s: seq<State>)
    requires s != [] && s[|s| - 1] == Damaged
    ensures Runs(s) == Runs(s[..|s| - TrailingDamaged(s)]) + [TrailingDamaged(s)]
  {
  }

  /** Every run is at least one spring long. */
  lemma {:induction false} RunsPositive(s: seq<State>)
    ensures forall k :: 0 <= k < |Runs(s)| ==> Runs(s)[k] >= 1
    decreases |s|
  {
    if s != [] {
      if s[|s| - 1] != Damaged {
        RunsPositive(s[..|s| - 1]);
      } else {
        RunsPositive(s[..|s| - TrailingDamaged(s)]);
      }
    }
  }

  /** The checksum of known springs; an unknown one panics. */
  function Checksum(s: seq<State>): Option<seq<nat>> {
    if Unknown in s then None else Some(Runs(s))
  }

  /** One spring of the counting loop: a working spring closes the current run, a
      damaged one lengthens it. */
  lemma {:induction false} CountStep(prefix: seq<State>, x: State, counter: nat, found: seq<nat>)
    requires counter == TrailingDamaged(prefix) && found == Runs(prefix[..|prefix| - counter])
    ensures x == Working ==> (TrailingDamaged(prefix + [x]) == 0
      && (if counter > 0 then found + [counter] else found) == Runs(prefix + [x]))
    ensures x == Damaged ==> (TrailingDamaged(prefix + [x]) == counter + 1
      && found == Runs((prefix + [x])[..|prefix| + 1 - (counter + 1)]))
  {
    TrailingSnoc(prefix, x);
    RunsSplit(prefix);
    RunsSnoc(prefix, x);
    assert (prefix + [x])[..|prefix| + 1 - (counter + 1)] == prefix[..|prefix| - counter];
  }

  /** One known spring of the counting loop: a working spring closes the pending run,
      a damaged one extends it. */
  method CountSpring(curr: seq<State>, i: nat, counter: nat, found: seq<nat>) returns (counter': nat, found': seq<nat>)
    requires i < |curr| && curr[i] != Unknown && Unknown !in curr[..i]
    requires counter == TrailingDamaged(curr[..i]) && found == Runs(curr[..i - counter])
    ensures Unknown !in curr[..i + 1]
    ensures counter' == TrailingDamaged(curr[..i + 1]) && found' == Runs(curr[..i + 1 - counter'])
  {
    found' := found;
    if curr[i] == Working {
      if counter > 0 {
        found' := found + [counter];
      }
      counter' := 0;
    } else {
      counter' := counter + 1;
    }
    CountStepAt(curr, i, counter, found, counter', found');
  }

  /** `CountStep` for the prefixes of one row. */
  lemma {:induction false} CountStepAt(curr: seq<State>, i: nat, counter: nat, found: seq<nat>, counter': nat, found': seq<nat>)
    requires i < |curr| && curr[i] != Unknown && Unknown !in curr[..i]
    requires counter == TrailingDamaged(curr[..i]) && found == Runs(curr[..i - counter])
    requires counter' == (if curr[i] == Working then 0 else counter + 1)
    requires found' == (if curr[i] == Working && counter > 0 then found + [counter] else found)
    ensures Unknown !in curr[..i + 1]
    ensures counter' == TrailingDamaged(curr[..i + 1]) && found' == Runs(curr[..i + 1 - counter'])
  {
    assert curr[..i + 1] == curr[..i] + [curr[i]];
    assert curr[..i][..i - counter] == curr[..i - counter];
    CountStep(curr[..i], curr[i], counter, found);
    if curr[i] == Damaged {
      assert curr[..i + 1 - counter'] == curr[..i - counter];
    } else {
      assert curr[..i + 1 - counter'] == curr[..i + 1];
    }
  }

  /** The counting loop of `get_possible_sequences`. */
  method RunLengths(curr: seq<State>) returns (r: Option<seq<nat>>)
    ensures r == Checksum(curr)
  {
    var found: seq<nat> := [];
    var counter := 0;
    for i := 0 to |curr|
      invariant counter == TrailingDamaged(curr[..i])
      invariant found == Runs(curr[..i - counter])
      invariant Unknown !in curr[..i]
    {
      if curr[i] == Unknown {
        assert curr[i] in curr;
        return None;
      }
      counter, found := CountSpring(curr, i, counter, found);
    }
    assert curr[..|curr|] == curr;
    RunsClose(curr, counter, found);
    if counter > 0 {
      found := found + [counter];
    }
    return Some(found);
  }

  /** Extending a row: its runs except the last stay as they are, and its last run can
      only grow, by at most the number of springs added. */
  lemma {:induction false} RunsExtend(c: seq<State>, e: seq<State>)
    ensures (var r, h := Runs(c), Runs(c + e);
             r != [] ==> (r[..|r| - 1] <= h && |r| <= |h| &&
                          r[|r| - 1] <= h[|r| - 1] && h[|r| - 1] - r[|r| - 1] <= |e|))
    decreases |e|
  {
    if e == [] {
      assert c + e == c;
    } else {
      var e' := e[..|e| - 1];
      var x := e[|e| - 1];
      RunsExtend(c, e');
      assert c + e == (c + e') + [x];
      RunsSnoc(c + e', x);
    }
  }

  // ---------------------------------------------------------------- completions

  /** The pruning test of `get_possible_sequences`: the runs so far may still grow into
      the checksum with `remaining` springs to go. */
  predicate Viable(found: seq<nat>, remaining: nat, checksum: seq<nat>) {
    found == [] ||
    (found[..|found| - 1] <= checksum && |found| <= |checksum| &&
     found[|found| - 1] <= checksum[|found| - 1] &&
     checksum[|found| - 1] - found[|found| - 1] <= remaining)
  }

  function Flat(r: Option<seq<seq<State>>>): seq<seq<State>> {
    if r.Some? then r.value else []
  }

  /** `get_possible_sequences`: the completions of `curr ++ rem` (unknown springs tried
      working, then damaged) whose runs equal `checksum`; None rather than an empty
      list. */
  function Possible(curr: seq<State>, rem: seq<State>, checksum: seq<nat>): (r: Option<seq<seq<State>>>)
    requires Unknown !in curr
    ensures r.Some? ==> |r.value| > 0
    decreases |rem|
  {
    if !Viable(Runs(curr), |rem|, checksum) then None
    else if rem == [] then (if checksum == Runs(curr) then Some([curr]) else None)
    else if rem[0] == Unknown then
      var result := Flat(Possible(curr + [Working], rem[1..], checksum)) +
                    Flat(Possible(curr + [Damaged], rem[1..], checksum));
      if |result| > 0 then Some(result) else None
    else Possible(curr + [rem[0]], rem[1..], checksum)
  }

  /** `h` completes `curr ++ rem`: it starts with `curr`, has no unknown spring, keeps
      every known spring of `rem`, and its runs are `checksum`. */
  predicate Completes(curr: seq<State>, rem: seq<State>, checksum: seq<nat>, h: seq<State>) {
    |h| == |curr| + |rem| && h[..|curr|] == curr && Unknown !in h &&
    (forall k :: 0 <= k < |rem| && rem[k] != Unknown ==> h[|curr| + k] == rem[k]) &&
    Runs(h) == checksum
  }

  predicate Among(r: Option<seq<seq<State>>>, h: seq<State>) {
    r.Some? && h in r.value
  }

  lemma {:induction false} CompletesStep(curr: seq<State>, rem: seq<State>, checksum: seq<nat>, h: seq<State>, x: State)
    requires rem != [] && x != Unknown && (rem[0] == Unknown || x == rem[0])
    ensures Completes(curr + [x], rem[1..], checksum, h) <==>
      Completes(curr, rem, checksum, h) && h[|curr|] == x
  {
    if Completes(curr + [x], rem[1..], checksum, h) {
      assert h[..|curr|] == h[..|curr| + 1][..|curr|];
      assert h[|curr|] == h[..|curr| + 1][|curr|];
      forall k | 0 <= k < |rem| && rem[k] != Unknown
        ensures h[|curr| + k] == rem[k]
      {
        if k > 0 {
          assert rem[k] == rem[1..][k - 1];
        }
      }
    }
    if Completes(curr, rem, checksum, h) && h[|curr|] == x {
      assert h[..|curr| + 1] == h[..|curr|] + [h[|curr|]];
      forall k | 0 <= k < |rem[1..]| && rem[1..][k] != Unknown
        ensures h[|curr + [x]| + k] == rem[1..][k]
      {
        assert rem[1..][k] == rem[k + 1];
      }
    }
  }

  /** The completions found are exactly the completions: every sequence returned is a
      completion, and the pruning never drops one. */
  lemma {:induction false} PossibleExact(curr: seq<State>, rem: seq<State>, checksum: seq<nat>, h: seq<State>)
    requires Unknown !in curr
    ensures Among(Possible(curr, rem, checksum), h) <==> Completes(curr, rem, checksum, h)
    decreases |rem|
  {
    if Completes(curr, rem, checksum, h) {
      assert h == curr + h[|curr|..];
      RunsExtend(curr, h[|curr|..]);
      assert Viable(Runs(curr), |rem|, checksum);
    }
    if Viable(Runs(curr), |rem|, checksum) {
      if rem == [] {
        if Completes(curr, rem, checksum, h) {
          assert h == h[..|curr|];
        }
      } else if rem[0] == Unknown {
        var w := Possible(curr + [Working], rem[1..], checksum);
        var d := Possible(curr + [Damaged], rem[1..], checksum);
        PossibleExact(curr + [Working], rem[1..], checksum, h);
        PossibleExact(curr + [Damaged], rem[1..], checksum, h);
        CompletesStep(curr, rem, checksum, h, Working);
        CompletesStep(curr, rem, checksum, h, Damaged);
        assert h in Flat(w) + Flat(d) <==> h in Flat(w) || h in Flat(d);
        if Completes(curr, rem, checksum, h) {
          assert h[|curr|] in h;
        }
      } else {
        PossibleExact(curr + [rem[0]], rem[1..], checksum, h);
        CompletesStep(curr, rem, checksum, h, rem[0]);
      }
    }
  }

  /** The branching of `get_possible_sequences`, run as the program does it. */
  method GetPossibleSequences(curr: seq<State>, rem: seq<State>, checksum: seq<nat>)
    returns (r: Option<seq<seq<State>>>)
    requires Unknown !in curr
    ensures r == Possible(curr, rem, checksum)
    decreases |rem|
  {
    var found := RunLengths(curr);
    if !Viable(found.value, |rem|, checksum) {
      return None;
    }
    if rem == [] {
      if checksum == found.value {
        return Some([curr]);
      }
      return None;
    }
    var next := rem[0];
    if next == Unknown {
      var result: seq<seq<State>> := [];
      var working := GetPossibleSequences(curr + [Working], rem[1..], checksum);
      if working.Some? {
        result := result + working.value;
      }
      assert result == Flat(working);
      var damaged := GetPossibleSequences(curr + [Damaged], rem[1..], checksum);
      if damaged.Some? {
        result := result + damaged.value;
      }
      assert result == Flat(working) + Flat(damaged);
      if |result| > 0 {
        return Some(result);
      }
      return None;
    }
    r := GetPossibleSequences(curr + [next], rem[1..], checksum);
  }

  // ---------------------------------------------------------------- unfolding

  /** `unfold_sequence`: `states ++ [Unknown]` cycled and cut to 2 * len + 1 springs. */
  function UnfoldSequence(states: seq<State>): (r: seq<State>)
    ensures |r| == 2 * |states| + 1
  {
    var n := |states| + 1;
    seq(2 * n - 1, i requires 0 <= i < 2 * n - 1 => (states + [Unknown])[i % n])
  }

  lemma {:induction false} UnfoldSequenceShape(states: seq<State>)
    ensures UnfoldSequence(states) == states + [Unknown] + states
  {
    var n := |states| + 1;
    var r := UnfoldSequence(states);
    forall i | 0 <= i < |r|
      ensures r[i] == (states + [Unknown] + states)[i]
    {
      if i >= n {
        ModShift(i, n);
      } else {
        ModSmall(i, n);
      }
    }
  }

  lemma {:induction false} ModSmall(i: nat, n: nat)
    requires i < n
    ensures i % n == i
  {
  }

  lemma {:induction false} ModShift(i: nat, n: nat)
    requires n <= i < 2 * n
    ensures i % n == i - n
  {
  }

  /** `unfold_checksum`: the checksum cycled and cut to twice its length. */
  function UnfoldChecksum(checksum: seq<nat>): (r: seq<nat>)
    ensures |r| == 2 * |checksum|
  {
    var n := |checksum|;
    seq(2 * n, i requires 0 <= i < 2 * n => checksum[i % n])
  }

  lemma {:induction false} UnfoldChecksumShape(checksum: seq<nat>)
    ensures UnfoldChecksum(checksum) == checksum + checksum
  {
    var n := |checksum|;
    var r := UnfoldChecksum(checksum);
    forall i | 0 <= i < |r|
      ensures r[i] == (checksum + checksum)[i]
    {
      if i >= n {
        ModShift(i, n);
      } else {
        ModSmall(i, n);
      }
    }
  }

  // ---------------------------------------------------------------- the record lines

  /** Runs of '.' replaced by one '.' (`\.+` → `.`). */
  function CollapseDots(s: string): (r: string)
    ensures s != [] && s[0] != '.' ==> r != [] && r[0] == s[0]
    ensures NoDoubleDots(r)
    decreases |s|
  {
    if s == [] then []
    else if s[0] == '.' then "." + CollapseDots(DropDots(s[1..]))
    else [s[0]] + CollapseDots(s[1..])
  }

  predicate NoDoubleDots(r: string) {
    forall i :: 0 <= i < |r| - 1 ==> !(r[i] == '.' && r[i + 1] == '.')
  }

  lemma {:induction false} CollapseDotsKeeps(s: string)
    ensures Remove(CollapseDots(s), '.') == Remove(s, '.')
    decreases |s|
  {
    if s != [] {
      if s[0] == '.' {
        RemoveDropDots(s[1..]);
        CollapseDotsKeeps(DropDots(s[1..]));
        assert ("." + CollapseDots(DropDots(s[1..])))[1..] == CollapseDots(DropDots(s[1..]));
      } else {
        CollapseDotsKeeps(s[1..]);
        assert ([s[0]] + CollapseDots(s[1..]))[1..] == CollapseDots(s[1..]);
      }
    }
  }

  lemma {:induction false} SuffixNoDoubleDots(c: string, n: nat)
    requires n <= |c| && NoDoubleDots(c)
    ensures NoDoubleDots(c[n..])
  {
    var t := c[n..];
    forall i | 0 <= i < |t| - 1
      ensures !(t[i] == '.' && t[i + 1] == '.')
    {
      assert t[i] == c[n + i] && t[i + 1] == c[n + i + 1];
    }
  }

  /** `trim_start_matches('.')`. */
  function DropDots(s: string): (r: string)
    ensures |r| <= |s| && r == s[|s| - |r|..]
    ensures r == [] || r[0] != '.'
  {
    if s != [] && s[0] == '.' then DropDots(s[1..]) else s
  }

  lemma {:induction false} RemoveDropDots(s: string)
    ensures Remove(DropDots(s), '.') == Remove(s, '.')
  {
    if s != [] && s[0] == '.' {
      RemoveDropDots(s[1..]);
    }
  }

  /** The `part_one` normalisation of the springs: dots collapsed, leading dots dropped,
      and one '.' appended unless the text already ends with one. */
  function Normalize(s: string): (r: string) {
    var t := DropDots(CollapseDots(s));
    if t != [] && t[|t| - 1] == '.' then t else t + "."
  }

  /** The normalised text ends with '.', has no two dots in a row, and begins with a
      spring other than '.' unless it is just ".". */
  lemma {:induction false} NormalizeShape(s: string)
    ensures Normalize(s) != [] && Normalize(s)[|Normalize(s)| - 1] == '.'
    ensures NoDoubleDots(Normalize(s))
    ensures |Normalize(s)| > 1 ==> Normalize(s)[0] != '.'
  {
    var c := CollapseDots(s);
    var t := DropDots(c);
    var r := Normalize(s);
    SuffixNoDoubleDots(c, |c| - |t|);
    if t != [] && t[|t| - 1] == '.' {
      assert r == t;
    } else {
      assert r == t + ".";
      AppendDot(t);
      DotAppended(t);
      assert |r| == |t| + 1 && r[|t|] == '.';
    }
  }

  lemma {:induction false} DotAppended(t: string)
    ensures |t + "."| == |t| + 1 && (t + ".")[|t|] == '.'
    ensures t != [] ==> (t + ".")[0] == t[0]
  {
  }

  /** A dot after a text that does not end in one makes no two dots in a row. */
  lemma {:induction false} AppendDot(t: string)
    requires NoDoubleDots(t) && !(t != [] && t[|t| - 1] == '.')
    ensures NoDoubleDots(t + ".")
  {
    var r := t + ".";
    forall i | 0 <= i < |r| - 1
      ensures !(r[i] == '.' && r[i + 1] == '.')
    {
      if i < |t| - 1 {
        assert r[i] == t[i] && r[i + 1] == t[i + 1];
      } else {
        assert r[i] == t[i];
      }
    }
  }

  /** Normalising keeps every character other than '.', in order. */
  lemma {:induction false} NormalizeKeeps(s: string)
    ensures Remove(Normalize(s), '.') == Remove(s, '.')
  {
    var t := DropDots(CollapseDots(s));
    DropCollapseKeeps(s);
    if !(t != [] && t[|t| - 1] == '.') {
      RemoveAppendDot(t);
    }
  }

  lemma {:induction false} DropCollapseKeeps(s: string)
    ensures Remove(DropDots(CollapseDots(s)), '.') == Remove(s, '.')
  {
    CollapseDotsKeeps(s);
    RemoveDropDots(CollapseDots(s));
  }

  lemma {:induction false} RemoveAppendDot(t: string)
    ensures Remove(t + ".", '.') == Remove(t, '.')
  {
    RemoveAppend(t, ".");
    RemoveDot();
  }

  lemma {:induction false} RemoveDot()
    ensures Remove(".", '.') == []
  {
    assert "."[1..] == [];
  }

  lemma {:induction false} RemoveAppend(a: string, b: string)
    ensures Remove(a + b, '.') == Remove(a, '.') + Remove(b, '.')
  {
    if a == [] {
      assert a + b == b;
    } else {
      var head := if a[0] == '.' then [] else [a[0]];
      DropAppend(a, b);
      RemoveAppend(a[1..], b);
      AppendAssoc(head, Remove(a[1..], '.'), Remove(b, '.'));
    }
  }

  lemma {:induction false} AppendAssoc(a: string, b: string, c: string)
    ensures (a + b) + c == a + (b + c)
  {
  }

  lemma {:induction false} DropAppend(a: string, b: string)
    requires a != []
    ensures a + b != [] && (a + b)[0] == a[0] && (a + b)[1..] == a[1..] + b
  {
    assert (a + b)[1..] == a[1..] + b;
  }

  function ParseStates(s: string): (r: Option<seq<State>>)
    ensures r.Some? ==> |r.value| == |s|
  {
    if s == [] then Some([])
    else match (StateOf(s[0]), ParseStates(s[1..]))
      case (Some(x), Some(xs)) => Some([x] + xs)
      case _ => None
  }

  /** One record: the springs, a space, then the comma-separated checksum. */
  function ParseRecord(line: string, normalize: bool): Option<(seq<State>, seq<nat>)> {
    var parts := SplitChar(line, ' ');
    if |parts| < 2 then None
    else
      var springs := if normalize then Normalize(parts[0]) else parts[0];
      match (ParseStates(springs), ParseNats(SplitChar(parts[1], ',')))
      case (Some(states), Some(checksum)) => Some((states, checksum))
      case _ => None
  }

  /** The records as `part_two` prepares them, unfolded. */
  function UnfoldRecord(line: string): (r: Option<(seq<State>, seq<nat>)>)
    ensures r.Some? ==> |r.value.0| % 2 == 1 && |r.value.1| % 2 == 0
  {
    match ParseRecord(line, false)
    case None => None
    case Some((states, checksum)) => Some((UnfoldSequence(states), UnfoldChecksum(checksum)))
  }
}
