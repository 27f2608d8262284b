/** Day 2: the cube game. Each game line lists rounds of cubes drawn from a bag; part
    one keeps the games possible with 12 red, 13 green and 14 blue cubes, part two
    multiplies the fewest cubes of each colour a game needs. */
module Day02Cubes {
  import opened Prelude

  datatype Color = Red | Blue | Green

  datatype Draw = Draw(color: Color, amount: nat)

  /** A game: its id and its rounds, each a list of draws. The source keys the rounds
      by their position in a map; a sequence in round order holds the same content. */
  datatype Game = Game(id: nat, rounds: seq<seq<Draw>>)

  // ---------------------------------------------------------------- parsing

  function ColorOf(name: string): Option<Color> {
    if name == "red" then Some(Red)
    else if name == "blue" then Some(Blue)
    else if name == "green" then Some(Green)
    else None
  }

  /** "amount colour": the colour is the last space-separated word (any other word
      panics), the amount is the first word. */
  function ParseDraw(text: string): (r: Option<Draw>)
    ensures r.Some? ==> var words := SplitChar(Trim(text), ' ');
      ColorOf(words[|words| - 1]) == Some(r.value.color) && ParseNat(words[0]) == Some(r.value.amount)
  {
    var words := SplitChar(Trim(text), ' ');
    match (ColorOf(words[|words| - 1]), ParseNat(words[0]))
    case (Some(c), Some(n)) => Some(Draw(c, n))
    case _ => None
  }

  function ParseDraws(parts: seq<string>): (r: Option<seq<Draw>>)
    ensures r.Some? ==> |r.value| == |parts| && forall i :: 0 <= i < |parts| ==> ParseDraw(parts[i]) == Some(r.value[i])
  {
    if parts == [] then Some([])
    else match (ParseDraw(parts[0]), ParseDraws(parts[1..]))
      case (Some(d), Some(ds)) => Some([d] + ds)
      case _ => None
  }

  /** A round: draws separated by ','. */
  function ParseRound(text: string): Option<seq<Draw>> {
    ParseDraws(SplitChar(Trim(text), ','))
  }

  function ParseRounds(parts: seq<string>): (r: Option<seq<seq<Draw>>>)
    ensures r.Some? ==> |r.value| == |parts| && forall i :: 0 <= i < |parts| ==> ParseRound(parts[i]) == Some(r.value[i])
  {
    if parts == [] then Some([])
    else match (ParseRound(parts[0]), ParseRounds(parts[1..]))
      case (Some(d), Some(ds)) => Some([d] + ds)
      case _ => None
  }

  /** "Game <id>: <round>; <round>; ..": the id is the last space-separated word before
      the first ':', the rounds are the text after the last ':' split on ';'. A line
      without ':' panics (None), as does any malformed id, amount or colour. */
  function ParseGame(line: string): (r: Option<Game>)
    ensures r.Some? ==> |SplitChar(line, ':')| >= 2
    ensures r.Some? ==> GameId(line) == Some(r.value.id)
  {
    var parts := SplitChar(line, ':');
    if |parts| < 2 then None
    else match (GameId(line), ParseRounds(SplitChar(Trim(parts[|parts| - 1]), ';')))
      case (Some(id), Some(rounds)) => Some(Game(id, rounds))
      case _ => None
  }

  /** The last space-separated word before the first ':', read as a number. */
  function GameId(line: string): Option<nat> {
    var words := SplitChar(SplitChar(line, ':')[0], ' ');
    ParseNat(words[|words| - 1])
  }

  function ParseGames(lines: seq<string>): (r: Option<seq<Game>>)
    ensures r.Some? ==> |r.value| == |lines| && forall i :: 0 <= i < |lines| ==> ParseGame(lines[i]) == Some(r.value[i])
  {
    if lines == [] then Some([])
    else match (ParseGame(lines[0]), ParseGames(lines[1..]))
      case (Some(g), Some(gs)) => Some([g] + gs)
      case _ => None
  }

  // ---------------------------------------------------------------- part one

  /** The bag of 12 red, 13 green and 14 blue cubes. */
  function Limit(c: Color): nat {
    match c
    case Red => 12
    case Green => 13
    case Blue => 14
  }

  predicate DrawPossible(d: Draw) {
    d.amount <= Limit(d.color)
  }

  /** Every draw of every round fits the bag. */
  predicate Possible(g: Game) {
    forall i, j :: 0 <= i < |g.rounds| && 0 <= j < |g.rounds[i]| ==> DrawPossible(g.rounds[i][j])
  }

  function SumPossibleIds(games: seq<Game>): nat {
    if games == [] then 0
    else (if Possible(games[0]) then games[0].id else 0) + SumPossibleIds(games[1..])
  }

  /** `part_one`: the sum of the ids of the possible games. */
  function PartOne(input: string): (r: Option<nat>)
    ensures r.Some? <==> ParseGames(Lines(input)).Some?
  {
    match ParseGames(Lines(input))
    case None => None
    case Some(games) => Some(SumPossibleIds(games))
  }

  // ---------------------------------------------------------------- part two

  /** All draws of a game, round after round (`values().flatten()`). */
  function Flatten(rounds: seq<seq<Draw>>): seq<Draw> {
    if rounds == [] then [] else rounds[0] + Flatten(rounds[1..])
  }

  /** Flattening keeps exactly the draws of the rounds. */
  lemma {:induction false} FlattenSpec(rounds: seq<seq<Draw>>)
    ensures forall i, j :: 0 <= i < |rounds| && 0 <= j < |rounds[i]| ==> rounds[i][j] in Flatten(rounds)
    ensures forall d :: d in Flatten(rounds) ==> exists i :: 0 <= i < |rounds| && d in rounds[i]
  {
    if rounds != [] {
      FlattenSpec(rounds[1..]);
      forall d | d in Flatten(rounds[1..]) ensures exists i :: 0 <= i < |rounds| && d in rounds[i] {
        var i :| 0 <= i < |rounds[1..]| && d in rounds[1..][i];
        assert d in rounds[i + 1];
      }
      forall i, j | 1 <= i < |rounds| && 0 <= j < |rounds[i]| ensures rounds[i][j] in Flatten(rounds) {
        assert rounds[i] == rounds[1..][i - 1];
      }
    }
  }

  /** The largest amount drawn of colour `c`, or 0 when `c` is never drawn. */
  function MaxAmount(draws: seq<Draw>, c: Color): (m: nat)
    ensures forall i :: 0 <= i < |draws| && draws[i].color == c ==> draws[i].amount <= m
    ensures m == 0 || exists i :: 0 <= i < |draws| && draws[i] == Draw(c, m)
  {
    if draws == [] then 0
    else
      var rest := MaxAmount(draws[1..], c);
      if draws[0].color == c && draws[0].amount > rest then draws[0].amount
      else
        assert rest == 0 || draws[1..][0] == Draw(c, rest) || exists i :: 1 <= i < |draws| && draws[i] == Draw(c, rest);
        rest
  }

  /** The loop of `part_two` over a game's draws, keeping a running maximum per
      colour. */
  method Maxima(draws: seq<Draw>) returns (maxRed: nat, maxBlue: nat, maxGreen: nat)
    ensures maxRed == MaxAmount(draws, Red)
    ensures maxBlue == MaxAmount(draws, Blue)
    ensures maxGreen == MaxAmount(draws, Green)
  {
    maxRed, maxBlue, maxGreen := 0, 0, 0;
    var i := |draws|;
    while i > 0
      invariant 0 <= i <= |draws|
      invariant maxRed == MaxAmount(draws[i..], Red)
      invariant maxBlue == MaxAmount(draws[i..], Blue)
      invariant maxGreen == MaxAmount(draws[i..], Green)
    {
      i := i - 1;
      assert draws[i..][1..] == draws[i + 1..];
      var d := draws[i];
      match d.color
      case Red => maxRed := if d.amount > maxRed then d.amount else maxRed;
      case Blue => maxBlue := if d.amount > maxBlue then d.amount else maxBlue;
      case Green => maxGreen := if d.amount > maxGreen then d.amount else maxGreen;
    }
    assert draws[0..] == draws;
  }

  /** The power of a game: the product of the per-colour maxima. */
  function Power(g: Game): nat {
    var draws := Flatten(g.rounds);
    Product3(MaxAmount(draws, Red), MaxAmount(draws, Blue), MaxAmount(draws, Green))
  }

  /** `max_red * max_blue * max_green`. */
  function Product3(a: nat, b: nat, c: nat): (p: nat)
    ensures p > 0 <==> a > 0 && b > 0 && c > 0
  {
    assert a > 0 && b > 0 ==> a * b > 0;
    a * b * c
  }

  method GamePower(g: Game) returns (p: nat)
    ensures p == Power(g)
  {
    var draws := Flatten(g.rounds);
    var r, b, gr := Maxima(draws);
    p := Product3(r, b, gr);
  }

  function SumPowers(games: seq<Game>): nat {
    if games == [] then 0 else Power(games[0]) + SumPowers(games[1..])
  }

  function PartTwo(input: string): (r: Option<nat>)
    ensures r.Some? <==> ParseGames(Lines(input)).Some?
  {
    match ParseGames(Lines(input))
    case None => None
    case Some(games) => Some(SumPowers(games))
  }

  // ---------------------------------------------------------------- properties

  /** A game is possible exactly when its per-colour maxima fit the bag: part one's
      filter and part two's tallies agree. */
  lemma {:induction false} PossibleIffMaximaFit(g: Game)
    ensures Possible(g) <==>
      MaxAmount(Flatten(g.rounds), Red) <= 12 &&
      MaxAmount(Flatten(g.rounds), Blue) <= 14 &&
      MaxAmount(Flatten(g.rounds), Green) <= 13
  {
    var draws := Flatten(g.rounds);
    FlattenSpec(g.rounds);
    if Possible(g) {
      forall c: Color ensures MaxAmount(draws, c) <= Limit(c) {
        var m := MaxAmount(draws, c);
        if m != 0 {
          var k :| 0 <= k < |draws| && draws[k] == Draw(c, m);
          assert draws[k] in draws;
          var i :| 0 <= i < |g.rounds| && draws[k] in g.rounds[i];
          var j :| 0 <= j < |g.rounds[i]| && g.rounds[i][j] == draws[k];
          assert DrawPossible(g.rounds[i][j]);
        }
      }
      assert MaxAmount(draws, Red) <= Limit(Red);
      assert MaxAmount(draws, Blue) <= Limit(Blue);
      assert MaxAmount(draws, Green) <= Limit(Green);
    } else {
      var i, j :| 0 <= i < |g.rounds| && 0 <= j < |g.rounds[i]| && !DrawPossible(g.rounds[i][j]);
      var d := g.rounds[i][j];
      assert d in draws;
      var k :| 0 <= k < |draws| && draws[k] == d;
      assert d.amount <= MaxAmount(draws, d.color);
    }
  }

  /** Colour `c` is drawn with a positive amount somewhere. */
  predicate Drawn(draws: seq<Draw>, c: Color) {
    exists k :: 0 <= k < |draws| && draws[k].color == c && draws[k].amount > 0
  }

  lemma {:induction false} MaxPositive(draws: seq<Draw>, c: Color)
    ensures MaxAmount(draws, c) > 0 <==> Drawn(draws, c)
  {
    if Drawn(draws, c) {
      var k :| 0 <= k < |draws| && draws[k].color == c && draws[k].amount > 0;
    }
  }

  /** A game's power is positive exactly when it draws every colour at least once. */
  lemma {:induction false} PowerPositive(g: Game)
    ensures Power(g) > 0 <==>
      Drawn(Flatten(g.rounds), Red) && Drawn(Flatten(g.rounds), Blue) && Drawn(Flatten(g.rounds), Green)
  {
    var draws := Flatten(g.rounds);
    MaxPositive(draws, Red);
    MaxPositive(draws, Blue);
    MaxPositive(draws, Green);
  }
}
