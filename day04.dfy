/** Day 4: scratchcards. A card scores by how many of its winning numbers it holds;
    in part two every match wins a copy of a following card, and the answer counts
    all cards held at the end. */
module Day04Scratchcards {
  import opened Prelude

  /** A parsed card line, before it becomes a `Game` with a mutable instance count. */
  datatype Card = Card(id: nat, winning: seq<nat>, own: seq<nat>)

  // ---------------------------------------------------------------- parsing

  predicate IsDigitOrSpace(c: char) {
    c == ' ' || IsAsciiDigit(c)
  }

  /** The length of the longest prefix of `s` made of digits. */
  function SpanDigits(s: string): (n: nat)
    ensures n <= |s| && AllDigits(s[..n]) && (n == |s| || !IsAsciiDigit(s[n]))
  {
    if s != [] && IsAsciiDigit(s[0]) then
      var k := SpanDigits(s[1..]);
      assert s[..k + 1] == [s[0]] + s[1..][..k];
      k + 1
    else 0
  }

  /** The length of the longest prefix of `s` made of digits and spaces (`[ \d]+`). */
  function SpanDigitsSpaces(s: string): (n: nat)
    ensures n <= |s| && (forall i :: 0 <= i < n ==> IsDigitOrSpace(s[i])) && (n == |s| || !IsDigitOrSpace(s[n]))
  {
    if s != [] && IsDigitOrSpace(s[0]) then 1 + SpanDigitsSpaces(s[1..]) else 0
  }

  /** The numbers of a `[ \d]+` capture: trimmed, split on ' ', each parsed. */
  function ParseNumbers(text: string): Option<seq<nat>> {
    ParseNats(SplitChar(Trim(text), ' '))
  }

  /** The captures of "Card <digits>:<digits and spaces>|<digits and spaces>" matched
      from the very start of `s`, or None when the pattern does not match there. Each
      group is the longest span of its class: the character after `\d+` must be ':' and
      the one after the first `[ \d]+` must be '|', neither of which the class holds, so
      no shorter span can lead to a match. */
  function MatchAt(s: string): (r: Option<(string, string, string)>)
    ensures r.Some? ==> |s| >= 5 && s[..5] == "Card "
    ensures r.Some? ==> r.value.0 != [] && AllDigits(r.value.0)
    ensures r.Some? ==> r.value.1 != [] && forall i :: 0 <= i < |r.value.1| ==> IsDigitOrSpace(r.value.1[i])
    ensures r.Some? ==> r.value.2 != [] && forall i :: 0 <= i < |r.value.2| ==> IsDigitOrSpace(r.value.2[i])
  {
    if !(|s| >= 5 && s[..5] == "Card ") then None
    else
      var rest := s[5..];
      var k := SpanDigits(rest);
      if k == 0 || k == |rest| || rest[k] != ':' then None
      else
        var afterColon := rest[k + 1..];
        var w := SpanDigitsSpaces(afterColon);
        if w == 0 || w == |afterColon| || afterColon[w] != '|' then None
        else
          var afterBar := afterColon[w + 1..];
          var o := SpanDigitsSpaces(afterBar);
          if o == 0 then None
          else Some((rest[..k], afterColon[..w], afterBar[..o]))
  }

  /** `Regex::captures` is not anchored: it takes the match that starts leftmost, here
      the first position of `s` from which the pattern matches, with its captures. */
  function FirstMatch(s: string): (r: Option<(nat, (string, string, string))>)
    ensures r.Some? ==> r.value.0 <= |s| && MatchAt(s[r.value.0..]) == Some(r.value.1)
  {
    if MatchAt(s).Some? then Some((0, MatchAt(s).value))
    else if s == [] then None
    else match FirstMatch(s[1..])
      case None => None
      case Some((k, caps)) =>
        assert s[1..][k..] == s[k + 1..];
        Some((k + 1, caps))
  }

  /** The match found is the leftmost one: the pattern matches from no earlier position. */
  lemma {:induction false} FirstMatchLeftmost(s: string)
    ensures FirstMatch(s).Some? ==> forall j :: 0 <= j < FirstMatch(s).value.0 ==> MatchAt(s[j..]).None?
  {
    var r := FirstMatch(s);
    if r.Some? && r.value.0 > 0 {
      assert s[0..] == s;
      assert MatchAt(s).None? && s != [];
      var r1 := FirstMatch(s[1..]);
      assert r1.Some? && r.value.0 == r1.value.0 + 1;
      FirstMatchLeftmost(s[1..]);
      forall j | 1 <= j < r.value.0
        ensures MatchAt(s[j..]).None?
      {
        assert s[1..][j - 1..] == s[j..];
      }
    }
  }

  /** No match is found exactly when the pattern matches from no position. */
  lemma {:induction false} FirstMatchNone(s: string)
    ensures FirstMatch(s).None? <==> forall j :: 0 <= j <= |s| ==> MatchAt(s[j..]).None?
  {
    assert s[0..] == s;
    if MatchAt(s).None? && s != [] {
      FirstMatchNone(s[1..]);
      assert FirstMatch(s).None? == FirstMatch(s[1..]).None?;
      forall j | 1 <= j <= |s|
        ensures s[1..][j - 1..] == s[j..]
      {
      }
      if FirstMatch(s).None? {
        forall j | 0 <= j <= |s|
          ensures MatchAt(s[j..]).None?
        {
          if j > 0 {
            assert MatchAt(s[1..][j - 1..]).None?;
          }
        }
      }
    } else if MatchAt(s).Some? {
      assert FirstMatch(s).Some?;
    }
  }

  /** `Game::create`: whitespace runs collapse to one space, then the leftmost match of
      the card pattern gives the id and the two number lists; a line the pattern does not
      match, or a number list that does not parse, panics. */
  function ParseCard(line: string): (r: Option<Card>)
    ensures r.Some? ==> |r.value.winning| >= 1 && |r.value.own| >= 1
  {
    var n := CollapseWhitespace(line);
    match FirstMatch(n)
    case None => None
    case Some((_, (id, win, own))) =>
      match (ParseNumbers(win), ParseNumbers(own))
      case (Some(w), Some(o)) => Some(Card(DigitsValue(id), w, o))
      case _ => None
  }

  /** A character that cannot begin "Card " in front of the text moves the leftmost
      match one position on and leaves its captures alone. */
  lemma {:induction false} FirstMatchSkips(c: char, s: string)
    requires c != 'C'
    ensures FirstMatch([c] + s).None? == FirstMatch(s).None?
    ensures FirstMatch(s).Some? ==> FirstMatch([c] + s).value.1 == FirstMatch(s).value.1
  {
    var t := [c] + s;
    assert t[0] == c;
    assert |t| >= 5 ==> t[..5][0] == c;
    assert MatchAt(t).None?;
    assert t[1..] == s;
  }

  /** The match is not anchored: a character other than 'C' and whitespace in front of
      a line leaves the card it reads unchanged. */
  lemma {:induction false} LeadingTextIgnored(c: char, line: string)
    requires c != 'C' && !IsWhitespace(c)
    ensures ParseCard([c] + line) == ParseCard(line)
  {
    assert CollapseWhitespace([c] + line) == [c] + CollapseWhitespace(line) by {
      assert ([c] + line)[1..] == line;
    }
    FirstMatchSkips(c, CollapseWhitespace(line));
  }

  /** Leading whitespace does not stop the match either: " Card 1: 1 | 1" reads as
      "Card 1: 1 | 1" does. */
  lemma {:induction false} LeadingSpaceIgnored(line: string)
    requires line != [] && !IsWhitespace(line[0])
    ensures ParseCard([' '] + line) == ParseCard(line)
  {
    assert CollapseWhitespace([' '] + line) == [' '] + CollapseWhitespace(line) by {
      assert ([' '] + line)[1..] == line;
      assert TrimStart(line) == line;
    }
    FirstMatchSkips(' ', CollapseWhitespace(line));
  }

  /** `lines.map(parse)`, collected: None as soon as one line fails to parse. */
  function ParseLines<T>(parse: string -> Option<T>, lines: seq<string>): (r: Option<seq<T>>)
    ensures r.Some? <==> forall i :: 0 <= i < |lines| ==> parse(lines[i]).Some?
    ensures r.Some? ==> |r.value| == |lines|
    ensures r.Some? ==> forall i :: 0 <= i < |lines| ==> parse(lines[i]) == Some(r.value[i])
  {
    if lines == [] then Some([])
    else match (parse(lines[0]), ParseLines(parse, lines[1..]))
      case (Some(c), Some(cs)) =>
        assert forall i :: 1 <= i < |lines| ==> lines[1..][i - 1] == lines[i];
        Some([c] + cs)
      case (None, _) => None
      case (_, None) =>
        assert forall i :: 1 <= i < |lines| ==> lines[1..][i - 1] == lines[i];
        None
  }

  /** The cards parse exactly when every line is a card, the i-th line giving the i-th
      card. */
  function ParseCards(lines: seq<string>): (r: Option<seq<Card>>)
    ensures r.Some? <==> forall i :: 0 <= i < |lines| ==> ParseCard(lines[i]).Some?
    ensures r.Some? ==> |r.value| == |lines|
    ensures r.Some? ==> forall i :: 0 <= i < |lines| ==> ParseCard(lines[i]) == Some(r.value[i])
  {
    ParseLines(ParseCard, lines)
  }

  // ---------------------------------------------------------------- scoring

  /** The winning numbers, in order, that also occur among the card's own numbers. */
  function Matching(winning: seq<nat>, own: seq<nat>): (r: seq<nat>)
    ensures forall x :: x in r <==> x in winning && x in own
    ensures |r| <= |winning|
  {
    if winning == [] then []
    else (if winning[0] in own then [winning[0]] else []) + Matching(winning[1..], own)
  }

  function MatchCount(c: Card): nat {
    |Matching(c.winning, c.own)|
  }

  function Pow2(n: nat): (p: nat)
    ensures p >= 1
  {
    if n == 0 then 1 else 2 * Pow2(n - 1)
  }

  /** `fold(acc, |acc, _| acc * 2)` over `k` elements. */
  function Doubled(k: nat, acc: nat): nat {
    if k == 0 then acc else Doubled(k - 1, acc * 2)
  }

  /** The score of a card with `n` matches, as `part_one` writes it: 0, 1, or 1 doubled
      once per match after the first. */
  function Score(n: nat): nat {
    if n == 0 then 0 else if n == 1 then 1 else Doubled(n - 1, 1)
  }

  lemma {:induction false} DoubledIsPow(k: nat, acc: nat)
    ensures Doubled(k, acc) == acc * Pow2(k)
  {
    if k > 0 {
      DoubledIsPow(k - 1, acc * 2);
      assert (acc * 2) * Pow2(k - 1) == acc * (2 * Pow2(k - 1));
    }
  }

  /** The score is 0 without matches and 2^(n-1) with n matches. */
  lemma {:induction false} ScoreIsPow(n: nat)
    ensures n == 0 ==> Score(n) == 0
    ensures n >= 1 ==> Score(n) == Pow2(n - 1)
  {
    if n >= 2 {
      DoubledIsPow(n - 1, 1);
    }
  }

  function SumScores(cards: seq<Card>): nat {
    if cards == [] then 0 else Score(MatchCount(cards[0])) + SumScores(cards[1..])
  }

  function PartOne(input: string): (r: Option<nat>)
    ensures r.Some? <==> ParseCards(Lines(input)).Some?
  {
    match ParseCards(Lines(input))
    case None => None
    case Some(cards) => Some(SumScores(cards))
  }

  // ---------------------------------------------------------------- part two, specified

  /** `times` more instances of each of the `k` cards that follow position `from - 1`;
      positions past the end are skipped. */
  function AddCopies(counts: seq<nat>, from: nat, k: nat, times: nat): (r: seq<nat>)
    ensures |r| == |counts|
    ensures forall j :: 0 <= j < |counts| ==> r[j] == counts[j] + (if from <= j < from + k then times else 0)
  {
    seq(|counts|, j requires 0 <= j < |counts| => counts[j] + (if from <= j < from + k then times else 0))
  }

  /** The instance counts once the first `k` cards have been processed: every card
      starts with one instance, and processing card `i` gives each of the next
      `matches[i]` cards as many extra instances as card `i` holds. */
  function Processed(matches: seq<nat>, k: nat): (r: seq<nat>)
    requires k <= |matches|
    ensures |r| == |matches|
  {
    if k == 0 then seq(|matches|, j => 1)
    else
      var prev := Processed(matches, k - 1);
      AddCopies(prev, k, matches[k - 1], prev[k - 1])
  }

  function Total(counts: seq<nat>): nat {
    if counts == [] then 0 else counts[0] + Total(counts[1..])
  }

  // ---------------------------------------------------------------- part two, in place

  /** A card with its mutable instance count (`struct Game`). */
  class Game {
    const id: nat
    const winningNumbers: seq<nat>
    const ownNumbers: seq<nat>
    var instances: nat

    /** `Game::create` once the line is parsed: every card starts as one instance. */
    constructor Create(c: Card)
      ensures id == c.id && winningNumbers == c.winning && ownNumbers == c.own
      ensures instances == 1
    {
      id := c.id;
      winningNumbers := c.winning;
      ownNumbers := c.own;
      instances := 1;
    }

    /** The number of winning numbers found among the own numbers. */
    function Matches(): nat {
      |Matching(winningNumbers, ownNumbers)|
    }

    method IncreaseInstances()
      modifies this
      ensures instances == old(instances) + 1
    {
      instances := instances + 1;
    }
  }

  predicate Distinct(games: seq<Game>) {
    forall a, b :: 0 <= a < b < |games| ==> games[a] != games[b]
  }

  function CountsOf(games: seq<Game>): (r: seq<nat>)
    reads set g | g in games
    ensures |r| == |games| && forall j :: 0 <= j < |games| ==> r[j] == games[j].instances
  {
    seq(|games|, j reads set g | g in games requires 0 <= j < |games| => games[j].instances)
  }

  function MatchesOf(cards: seq<Card>): (r: seq<nat>)
    ensures |r| == |cards| && forall j :: 0 <= j < |cards| ==> r[j] == MatchCount(cards[j])
  {
    seq(|cards|, j requires 0 <= j < |cards| => MatchCount(cards[j]))
  }

  /** One pass of card `index`: one more instance for each of the next `matches` cards,
      stopping at the end of the list (`get_mut` returning None breaks the loop). */
  method AddOnePass(games: seq<Game>, index: nat, matches: nat)
    requires Distinct(games) && index < |games|
    modifies set g | g in games
    ensures forall j :: 0 <= j < |games| ==>
      games[j].instances == old(games[j].instances) + (if index + 1 <= j < index + 1 + matches then 1 else 0)
  {
    var m := 0;
    while m < matches
      invariant 0 <= m <= matches
      invariant forall j :: 0 <= j < |games| ==>
        games[j].instances == old(games[j].instances) + (if index + 1 <= j < index + 1 + m then 1 else 0)
    {
      if index + 1 + m >= |games| {
        break;
      }
      games[index + 1 + m].IncreaseInstances();
      m := m + 1;
    }
  }

  /** One `Game` per card, each a fresh object with one instance. */
  method CreateGames(cards: seq<Card>) returns (games: seq<Game>)
    ensures |games| == |cards| && Distinct(games)
    ensures forall j :: 0 <= j < |games| ==> fresh(games[j])
    ensures forall j :: 0 <= j < |games| ==> games[j].Matches() == MatchCount(cards[j])
    ensures CountsOf(games) == seq(|cards|, j => 1)
  {
    games := [];
    var i := 0;
    while i < |cards|
      invariant 0 <= i <= |cards| && |games| == i
      invariant Distinct(games)
      invariant forall j :: 0 <= j < i ==> fresh(games[j])
      invariant forall j :: 0 <= j < i ==> games[j].Matches() == MatchCount(cards[j]) && games[j].instances == 1
    {
      var g := new Game.Create(cards[i]);
      games := games + [g];
      i := i + 1;
    }
  }

  /** The two inner loops of `part_two` for card `index`: as many passes as the card
      holds instances when its turn comes. */
  method ProcessCard(games: seq<Game>, matches: seq<nat>, index: nat)
    requires Distinct(games) && |games| == |matches| && index < |games|
    requires forall j :: 0 <= j < |games| ==> games[j].Matches() == matches[j]
    requires CountsOf(games) == Processed(matches, index)
    modifies set g | g in games
    ensures CountsOf(games) == Processed(matches, index + 1)
  {
    var before := Processed(matches, index);
    var passes := games[index].instances;
    assert passes == before[index];
    var p := 0;
    while p < passes
      invariant 0 <= p <= passes
      invariant forall j :: 0 <= j < |games| ==>
        games[j].instances == before[j] + (if index + 1 <= j < index + 1 + matches[index] then p else 0)
    {
      AddOnePass(games, index, games[index].Matches());
      p := p + 1;
    }
    var after := Processed(matches, index + 1);
    assert after == AddCopies(before, index + 1, matches[index], passes);
    forall j | 0 <= j < |games| ensures CountsOf(games)[j] == after[j] {
    }
  }

  /** `part_two`: a line that is not a card panics (None); otherwise the total number
      of card instances once every card is processed. */
  method PartTwo(input: string) returns (r: Option<nat>)
    ensures ParseCards(Lines(input)).None? ==> r.None?
    ensures ParseCards(Lines(input)).Some? ==>
      var cards := ParseCards(Lines(input)).value;
      r == Some(Total(Processed(MatchesOf(cards), |cards|)))
  {
    var cards := ParseCards(Lines(input));
    if cards.None? {
      return None;
    }
    var total := CountCards(cards.value);
    return Some(total);
  }

  /** The loops of `part_two`: card `index` is processed once per instance it holds
      when its turn comes. The counts end as `Processed`, and the answer is their sum. */
  method CountCards(cards: seq<Card>) returns (total: nat)
    ensures total == Total(Processed(MatchesOf(cards), |cards|))
  {
    var games := CreateGames(cards);
    var matches := MatchesOf(cards);
    var index := 0;
    while index < |games|
      invariant 0 <= index <= |games|
      invariant forall j :: 0 <= j < |games| ==> games[j].Matches() == matches[j]
      invariant CountsOf(games) == Processed(matches, index)
    {
      ProcessCard(games, matches, index);
      index := index + 1;
    }
    total := Total(CountsOf(games));
  }

  // ---------------------------------------------------------------- properties

  /** Processing card `k` changes only the cards after it. */
  lemma {:induction false} ProcessedKeepsEarlier(matches: seq<nat>, k: nat, j: nat)
    requires k < |matches| && j <= k
    ensures Processed(matches, k + 1)[j] == Processed(matches, k)[j]
  {
  }

  /** Instance counts never decrease and never drop below one. */
  lemma {:induction false} ProcessedGrows(matches: seq<nat>, k: nat, j: nat)
    requires k <= |matches| && j < |matches|
    ensures Processed(matches, k)[j] >= 1
    ensures k < |matches| ==> Processed(matches, k)[j] <= Processed(matches, k + 1)[j]
  {
    if k > 0 {
      ProcessedGrows(matches, k - 1, j);
    }
  }

  /** A card's count is final as soon as its own turn comes: no later card adds to it. */
  lemma {:induction false} FinalWhenProcessed(matches: seq<nat>, k: nat, j: nat)
    requires j <= k <= |matches| && j < |matches|
    ensures Processed(matches, k)[j] == Processed(matches, j)[j]
    decreases k
  {
    if k > j {
      FinalWhenProcessed(matches, k - 1, j);
    }
  }

  /** The first card has one instance, and a card with no matches adds nothing. */
  lemma {:induction false} FirstCardSingle(matches: seq<nat>)
    requires |matches| > 0
    ensures Processed(matches, |matches|)[0] == 1
  {
    FinalWhenProcessed(matches, |matches|, 0);
  }

  lemma {:induction false} TotalAtLeastLength(counts: seq<nat>)
    requires forall j :: 0 <= j < |counts| ==> counts[j] >= 1
    ensures Total(counts) >= |counts|
  {
    if counts != [] {
      TotalAtLeastLength(counts[1..]);
    }
  }

  /** At least one instance of every card is held at the end. */
  lemma {:induction false} TotalAtLeastCards(matches: seq<nat>)
    ensures Total(Processed(matches, |matches|)) >= |matches|
  {
    forall j | 0 <= j < |matches| ensures Processed(matches, |matches|)[j] >= 1 {
      ProcessedGrows(matches, |matches|, j);
    }
    TotalAtLeastLength(Processed(matches, |matches|));
  }

  /** Without any match, every card stays a single instance. */
  lemma {:induction false} NoMatchesNoCopies(matches: seq<nat>, k: nat)
    requires k <= |matches| && forall j :: 0 <= j < |matches| ==> matches[j] == 0
    ensures forall j :: 0 <= j < |matches| ==> Processed(matches, k)[j] == 1
  {
    if k > 0 {
      NoMatchesNoCopies(matches, k - 1);
    }
  }
}
