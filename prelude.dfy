/** Shared vocabulary for the per-day modules: the few pieces of Rust's standard
    library (`str::split`, `lines`, `trim`, `parse`, iterator sums) that the puzzle
    solutions lean on, stated as total functions over `string`s and sequences. */
module Prelude {

  datatype Option<T> = None | Some(value: T)

  // ---------------------------------------------------------------- characters

  predicate IsAsciiDigit(c: char) {
    '0' <= c <= '9'
  }

  function DigitValue(c: char): (d: nat)
    requires IsAsciiDigit(c)
    ensures d <= 9
  {
    c as int - '0' as int
  }

  /** The characters with the Unicode White_Space property, which `char::is_whitespace`
      (behind `trim` and `split_whitespace`) and the regex class `\s` accept. */
  predicate IsWhitespace(c: char) {
    ('\t' <= c <= '\r') || c == ' ' || c == '\U{0085}' || c == '\U{00A0}' || c == '\U{1680}'
    || ('\U{2000}' <= c <= '\U{200A}') || c == '\U{2028}' || c == '\U{2029}' || c == '\U{202F}'
    || c == '\U{205F}' || c == '\U{3000}'
  }

  // ---------------------------------------------------------------- lists

  /** A `for` loop pushing each item onto a list. */
  method PushAll<T>(list: seq<T>, items: seq<T>) returns (r: seq<T>)
    ensures r == list + items
  {
    r := list;
    for k := 0 to |items|
      invariant r == list + items[..k]
    {
      assert items[..k + 1] == items[..k] + [items[k]];
      r := r + [items[k]];
    }
    assert items[..|items|] == items;
  }

  // ---------------------------------------------------------------- splitting

  /** `s.split(sep)` for a non-empty pattern: leftmost, non-overlapping matches are
      cut out, and k matches give k + 1 pieces (possibly empty). */
  function Split(s: string, sep: string): (r: seq<string>)
    requires |sep| > 0
    ensures |r| >= 1
    decreases |s|
  {
    if |s| < |sep| then [s]
    else if s[..|sep|] == sep then [""] + Split(s[|sep|..], sep)
    else
      var rest := Split(s[1..], sep);
      [[s[0]] + rest[0]] + rest[1..]
  }

  /** The inverse of `Split`: the pieces glued back with the separator. */
  function Join(parts: seq<string>, sep: string): string {
    if |parts| == 0 then ""
    else if |parts| == 1 then parts[0]
    else parts[0] + sep + Join(parts[1..], sep)
  }

  lemma {:induction false} JoinConsHead(c: char, parts: seq<string>, sep: string)
    requires |parts| >= 1
    ensures Join([[c] + parts[0]] + parts[1..], sep) == [c] + Join(parts, sep)
  {
    var q := [[c] + parts[0]] + parts[1..];
    if |parts| > 1 {
      assert q[1..] == parts[1..];
    }
  }

  /** Splitting loses nothing: joining the pieces gives the text back. */
  lemma {:induction false} JoinSplit(s: string, sep: string)
    requires |sep| > 0
    ensures Join(Split(s, sep), sep) == s
    decreases |s|
  {
    if |s| < |sep| {
    } else if s[..|sep|] == sep {
      JoinSplit(s[|sep|..], sep);
      var rest := Split(s[|sep|..], sep);
      var parts := [""] + rest;
      assert Split(s, sep) == parts && parts[1..] == rest;
      assert Join(parts, sep) == "" + sep + Join(rest, sep);
      assert s == s[..|sep|] + s[|sep|..];
    } else {
      JoinSplit(s[1..], sep);
      var rest := Split(s[1..], sep);
      assert Split(s, sep) == [[s[0]] + rest[0]] + rest[1..];
      JoinConsHead(s[0], rest, sep);
      assert s == [s[0]] + s[1..];
    }
  }

  /** `s.split(c)` for a single character. */
  function SplitChar(s: string, c: char): (r: seq<string>)
    ensures |r| >= 1
    ensures forall i :: 0 <= i < |r| ==> c !in r[i]
  {
    SplitCharPieces(s, c);
    Split(s, [c])
  }

  lemma {:induction false} SplitCharPieces(s: string, c: char)
    ensures forall i :: 0 <= i < |Split(s, [c])| ==> c !in Split(s, [c])[i]
    decreases |s|
  {
    if |s| >= 1 {
      SplitCharPieces(s[1..], c);
      if s[..1] != [c] {
        assert s[0] != c by {
          assert s[..1] == [s[0]];
        }
      }
    }
  }

  /** A text without the separator is a single piece. */
  lemma {:induction false} SplitCharAbsent(s: string, c: char)
    requires c !in s
    ensures SplitChar(s, c) == [s]
    decreases |s|
  {
    if |s| >= 1 {
      assert s[..1] == [s[0]];
      SplitCharAbsent(s[1..], c);
      assert [s[0]] + s[1..] == s;
    }
  }

  /** The text up to the first separator is the first piece. */
  lemma {:induction false} SplitCharAt(a: string, c: char, b: string)
    requires c !in a
    ensures SplitChar(a + [c] + b, c) == [a] + SplitChar(b, c)
    decreases |a|
  {
    var s := a + [c] + b;
    if a == [] {
      assert s[..1] == [c] && s[1..] == b;
    } else {
      assert s[..1] == [a[0]] && s[1..] == a[1..] + [c] + b;
      SplitCharAt(a[1..], c, b);
      assert [a[0]] + a[1..] == a;
    }
  }

  /** Without the separator's first character a text is a single piece. */
  lemma {:induction false} SplitAbsent(s: string, sep: string)
    requires |sep| > 0 && sep[0] !in s
    ensures Split(s, sep) == [s]
    decreases |s|
  {
    if |s| >= |sep| {
      assert s[..|sep|][0] == s[0];
      SplitAbsent(s[1..], sep);
      assert [s[0]] + s[1..] == s;
    }
  }

  /** The text before the first separator is the first piece. */
  lemma {:induction false} SplitAt(a: string, sep: string, b: string)
    requires |sep| > 0 && sep[0] !in a
    ensures Split(a + sep + b, sep) == [a] + Split(b, sep)
    decreases |a|
  {
    var s := a + sep + b;
    if a == [] {
      assert s[..|sep|] == sep && s[|sep|..] == b;
    } else {
      assert s[..|sep|][0] == a[0];
      assert s[1..] == a[1..] + sep + b;
      SplitAt(a[1..], sep, b);
      assert [a[0]] + a[1..] == a;
    }
  }

  /** Splitting pieces glued with a character they lack gives the pieces back. */
  lemma {:induction false} SplitCharJoin(parts: seq<string>, c: char)
    requires |parts| >= 1 && forall k :: 0 <= k < |parts| ==> c !in parts[k]
    ensures SplitChar(Join(parts, [c]), c) == parts
    decreases |parts|
  {
    if |parts| == 1 {
      SplitCharAbsent(parts[0], c);
    } else {
      assert Join(parts, [c]) == parts[0] + [c] + Join(parts[1..], [c]);
      SplitCharAt(parts[0], c, Join(parts[1..], [c]));
      SplitCharJoin(parts[1..], c);
      assert [parts[0]] + parts[1..] == parts;
    }
  }

  /** `s.lines()`: split on '\n'; a final empty piece (after a trailing newline, or
      of the empty text) is not a line. */
  function Lines(s: string): (r: seq<string>)
    ensures forall i :: 0 <= i < |r| ==> '\n' !in r[i]
    ensures s == "" ==> r == []
  {
    var parts := SplitChar(s, '\n');
    if parts[|parts| - 1] == "" then parts[..|parts| - 1] else parts
  }

  // ---------------------------------------------------------------- trimming

  function TrimStart(s: string): (r: string)
    ensures |r| <= |s| && r == s[|s| - |r|..]
    ensures r == "" || !IsWhitespace(r[0])
  {
    if |s| > 0 && IsWhitespace(s[0]) then TrimStart(s[1..]) else s
  }

  function TrimEnd(s: string): (r: string)
    ensures |r| <= |s| && r == s[..|r|]
    ensures r == "" || !IsWhitespace(r[|r| - 1])
  {
    if |s| > 0 && IsWhitespace(s[|s| - 1]) then TrimEnd(s[..|s| - 1]) else s
  }

  /** `str::trim`: leading and trailing whitespace removed. */
  function Trim(s: string): (r: string)
    ensures |r| <= |s|
    ensures r == "" || (!IsWhitespace(r[0]) && !IsWhitespace(r[|r| - 1]))
  {
    TrimEnd(TrimStart(s))
  }

  /** `\s+` replaced by a single space. */
  function CollapseWhitespace(s: string): (r: string)
    ensures s != [] && !IsWhitespace(s[0]) ==> r != [] && r[0] == s[0]
    ensures forall i :: 0 <= i < |r| ==> r[i] == ' ' || !IsWhitespace(r[i])
    ensures forall i :: 0 <= i < |r| - 1 ==> !(r[i] == ' ' && r[i + 1] == ' ')
    decreases |s|
  {
    if s == [] then []
    else if IsWhitespace(s[0]) then
      var t := TrimStart(s[1..]);
      var rest := CollapseWhitespace(t);
      assert rest == [] || (rest[0] == t[0] && rest[0] != ' ');
      CollapsedCons(' ', rest);
      [' '] + rest
    else
      var rest := CollapseWhitespace(s[1..]);
      CollapsedCons(s[0], rest);
      [s[0]] + rest
  }

  /** One character in front of a collapsed text keeps it collapsed, unless it makes
      two spaces in a row. */
  lemma {:induction false} CollapsedCons(x: char, rest: string)
    requires forall i :: 0 <= i < |rest| ==> rest[i] == ' ' || !IsWhitespace(rest[i])
    requires forall i :: 0 <= i < |rest| - 1 ==> !(rest[i] == ' ' && rest[i + 1] == ' ')
    requires x == ' ' || !IsWhitespace(x)
    requires x == ' ' ==> rest == [] || rest[0] != ' '
    ensures forall i :: 0 <= i < |[x] + rest| ==> ([x] + rest)[i] == ' ' || !IsWhitespace(([x] + rest)[i])
    ensures forall i :: 0 <= i < |[x] + rest| - 1 ==>
      !(([x] + rest)[i] == ' ' && ([x] + rest)[i + 1] == ' ')
  {
    var r := [x] + rest;
    forall i | 0 < i < |r|
      ensures r[i] == rest[i - 1]
    {
    }
  }

  /** Every character of `s` except those equal to `c` (`str::replace(c, "")`). */
  function Remove(s: string, c: char): (r: string)
    ensures c !in r
    ensures |r| <= |s|
  {
    if s == [] then [] else (if s[0] == c then [] else [s[0]]) + Remove(s[1..], c)
  }

  // ---------------------------------------------------------------- numbers

  predicate AllDigits(s: string) {
    forall i :: 0 <= i < |s| ==> IsAsciiDigit(s[i])
  }

  /** The value of a run of decimal digits, most significant first. */
  function DigitsValue(s: string): nat
    requires AllDigits(s)
  {
    if s == [] then 0 else DigitsValue(s[..|s| - 1]) * 10 + DigitValue(s[|s| - 1])
  }

  /** `str::parse::<uN>()` over unbounded naturals: an optional '+', then at least one
      ASCII digit and nothing else; anything else is an error. */
  function ParseNat(s: string): (r: Option<nat>)
    ensures r.Some? <==> (|s| > 0 && AllDigits(s)) || (|s| > 1 && s[0] == '+' && AllDigits(s[1..]))
  {
    if |s| > 0 && s[0] == '+' then
      (if |s| > 1 && AllDigits(s[1..]) then Some(DigitsValue(s[1..])) else None)
    else if |s| > 0 && AllDigits(s) then Some(DigitsValue(s))
    else None
  }

  /** `str::parse::<iN>()` over unbounded integers: an optional sign, then digits. */
  function ParseInt(s: string): (r: Option<int>)
    ensures |s| > 0 && AllDigits(s) ==> r == Some(DigitsValue(s))
    ensures r.Some? ==> |s| > 0
  {
    if |s| > 1 && s[0] == '-' && AllDigits(s[1..]) then
      var magnitude: int := DigitsValue(s[1..]);
      Some(-magnitude)
    else match ParseNat(s)
      case Some(n) => Some(n)
      case None => None
  }

  /** The decimal digits of `n`, the text that `ParseNat` reads back. */
  function NatToString(n: nat): (s: string)
    ensures |s| > 0 && AllDigits(s)
  {
    if n < 10 then [('0' as int + n) as char]
    else NatToString(n / 10) + [('0' as int + n % 10) as char]
  }

  lemma {:induction false} DigitsOfNat(n: nat)
    ensures DigitsValue(NatToString(n)) == n
  {
    var s := NatToString(n);
    if n >= 10 {
      DigitsOfNat(n / 10);
      assert s[..|s| - 1] == NatToString(n / 10);
    }
  }

  /** Printing then parsing is the identity. */
  lemma {:induction false} ParseNatToString(n: nat)
    ensures ParseNat(NatToString(n)) == Some(n)
  {
    DigitsOfNat(n);
    assert NatToString(n)[0] != '+';
  }

  /** Parse every piece; the whole fails as soon as one piece fails (`collect` into a
      `Result`, or a `map(unwrap)` that panics). */
  function ParseNats(parts: seq<string>): (r: Option<seq<nat>>)
    ensures r.Some? ==> |r.value| == |parts|
    ensures r.Some? ==> forall i :: 0 <= i < |parts| ==> ParseNat(parts[i]) == Some(r.value[i])
    ensures r.None? ==> exists i :: 0 <= i < |parts| && ParseNat(parts[i]).None?
  {
    if parts == [] then Some([])
    else match (ParseNat(parts[0]), ParseNats(parts[1..]))
      case (Some(n), Some(ns)) => Some([n] + ns)
      case (None, _) => None
      case (_, None) =>
        assert ParseNat(parts[1..][0]).None? || exists i :: 0 <= i < |parts[1..]| && ParseNat(parts[1..][i]).None?;
        None
  }

  /** Pieces that each parse give exactly their numbers. */
  lemma {:induction false} ParseNatsOf(parts: seq<string>, ns: seq<nat>)
    requires |parts| == |ns| && forall i :: 0 <= i < |parts| ==> ParseNat(parts[i]) == Some(ns[i])
    ensures ParseNats(parts) == Some(ns)
  {
    var r := ParseNats(parts);
    assert r.value == ns;
  }

  function ParseInts(parts: seq<string>): (r: Option<seq<int>>)
    ensures r.Some? ==> |r.value| == |parts|
    ensures r.Some? ==> forall i :: 0 <= i < |parts| ==> ParseInt(parts[i]) == Some(r.value[i])
  {
    if parts == [] then Some([])
    else match (ParseInt(parts[0]), ParseInts(parts[1..]))
      case (Some(n), Some(ns)) => Some([n] + ns)
      case _ => None
  }

  // ---------------------------------------------------------------- folds

  function Sum(s: seq<int>): int {
    if s == [] then 0 else s[0] + Sum(s[1..])
  }

  function Product(s: seq<int>): int {
    if s == [] then 1 else s[0] * Product(s[1..])
  }

  /** Multiplication distributes over addition. */
  lemma {:induction false} Distrib(x: int, y: int, z: int)
    ensures x * (y + z) == x * y + x * z
  {
  }

  lemma {:induction false} SumAppend(a: seq<int>, b: seq<int>)
    ensures Sum(a + b) == Sum(a) + Sum(b)
  {
    if a == [] {
      assert a + b == b;
    } else {
      assert (a + b)[1..] == a[1..] + b;
      SumAppend(a[1..], b);
    }
  }

  lemma {:induction false} SumNonNegative(s: seq<int>)
    requires forall i :: 0 <= i < |s| ==> s[i] >= 0
    ensures Sum(s) >= 0
  {
    if s != [] {
      SumNonNegative(s[1..]);
    }
  }

  /** `iter().unique()`: first occurrences, in order. The contract states the elements
      and that none repeats; the order is left unstated, since only the count is used. */
  function Dedup<T(==,!new)>(s: seq<T>): (r: seq<T>)
    ensures forall x :: x in r <==> x in s
    ensures forall i, j :: 0 <= i < j < |r| ==> r[i] != r[j]
  {
    DedupFrom(s, [])
  }

  function DedupFrom<T(==,!new)>(s: seq<T>, seen: seq<T>): (r: seq<T>)
    requires forall i, j :: 0 <= i < j < |seen| ==> seen[i] != seen[j]
    ensures forall x :: x in r <==> x in s || x in seen
    ensures forall i, j :: 0 <= i < j < |r| ==> r[i] != r[j]
    ensures |seen| <= |r| && r[..|seen|] == seen
    decreases |s|
  {
    if s == [] then seen
    else if s[0] in seen then DedupFrom(s[1..], seen)
    else DedupFrom(s[1..], seen + [s[0]])
  }
}
