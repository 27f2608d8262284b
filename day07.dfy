/** Day 7: camel cards. Hands are classified by their label multiplicities, Jokers are
    tried as every other label, and the games are ranked by hand type and then card by
    card. */
module Day07CamelCards {
  import opened Prelude

  // ---------------------------------------------------------------- labels

  /** `CardLabel`, declared weakest first; `Rank` is its derived order. */
  datatype Label = Joker | Two | Three | Four | Five | Six | Seven | Eight | Nine | T | J | Q | K | A

  function Rank(l: Label): (r: nat)
    ensures r < 14
  {
    match l
    case Joker => 0 case Two => 1 case Three => 2 case Four => 3 case Five => 4
    case Six => 5 case Seven => 6 case Eight => 7 case Nine => 8 case T => 9
    case J => 10 case Q => 11 case K => 12 case A => 13
  }

  /** The character that stands for each label ('X' for the Joker). */
  function CharOf(l: Label): char {
    match l
    case Joker => 'X' case Two => '2' case Three => '3' case Four => '4' case Five => '5'
    case Six => '6' case Seven => '7' case Eight => '8' case Nine => '9' case T => 'T'
    case J => 'J' case Q => 'Q' case K => 'K' case A => 'A'
  }

  /** `CardLabel::try_from(char)`: the fourteen label characters are accepted and any
      other character is an error. */
  function LabelOf(c: char): (r: Option<Label>)
    ensures r.Some? ==> CharOf(r.value) == c
  {
    match c
    case 'X' => Some(Joker) case '2' => Some(Two) case '3' => Some(Three)
    case '4' => Some(Four) case '5' => Some(Five) case '6' => Some(Six)
    case '7' => Some(Seven) case '8' => Some(Eight) case '9' => Some(Nine)
    case 'T' => Some(T) case 'J' => Some(J) case 'Q' => Some(Q)
    case 'K' => Some(K) case 'A' => Some(A)
    case _ => None
  }

  /** Reading a label's character gives the label back, and a character that stands
      for no label is rejected. */
  lemma {:induction false} LabelOfCharOf(l: Label, c: char)
    ensures LabelOf(CharOf(l)) == Some(l)
    ensures LabelOf(c).None? <==> forall m: Label :: CharOf(m) != c
  {
    if LabelOf(c).None? {
      forall m: Label
        ensures CharOf(m) != c
      {
        match m
        case Joker => case Two => case Three => case Four => case Five => case Six =>
        case Seven => case Eight => case Nine => case T => case J => case Q => case K => case A =>
      }
    } else {
      assert CharOf(LabelOf(c).value) == c;
    }
  }

  /** Distinct labels have distinct ranks, so the order on labels is total. */
  lemma {:induction false} RankInjective(a: Label, b: Label)
    ensures Rank(a) == Rank(b) <==> a == b
  {
  }

  /** The thirteen labels a Joker may stand for, in label order (`CardLabel::iter()`
      without the Joker). */
  function NonJokers(): (r: seq<Label>)
    ensures |r| == 13 && Joker !in r
  {
    [Two, Three, Four, Five, Six, Seven, Eight, Nine, T, J, Q, K, A]
  }

  lemma {:induction false} NonJokersComplete(l: Label)
    ensures l in NonJokers() <==> l != Joker
  {
    var r := NonJokers();
    match l
    case Joker =>
    case Two => assert r[0] == l; case Three => assert r[1] == l; case Four => assert r[2] == l;
    case Five => assert r[3] == l; case Six => assert r[4] == l; case Seven => assert r[5] == l;
    case Eight => assert r[6] == l; case Nine => assert r[7] == l; case T => assert r[8] == l;
    case J => assert r[9] == l; case Q => assert r[10] == l; case K => assert r[11] == l;
    case A => assert r[12] == l;
  }

  // ---------------------------------------------------------------- hand types

  /** `HandType`, declared weakest first. */
  datatype HandType = HighCard | OnePair | TwoPair | ThreeOfAKind | FullHouse | FourOfAKind | FiveOfAKind

  function Strength(h: HandType): (r: nat)
    ensures r < 7
  {
    match h
    case HighCard => 0 case OnePair => 1 case TwoPair => 2 case ThreeOfAKind => 3
    case FullHouse => 4 case FourOfAKind => 5 case FiveOfAKind => 6
  }

  lemma {:induction false} StrengthInjective(a: HandType, b: HandType)
    ensures Strength(a) == Strength(b) <==> a == b
  {
  }

  predicate AllEqual(cards: seq<Label>) {
    forall i, j :: 0 <= i < |cards| && 0 <= j < |cards| ==> cards[i] == cards[j]
  }

  predicate AllUnique(cards: seq<Label>) {
    forall i, j :: 0 <= i < j < |cards| ==> cards[i] != cards[j]
  }

  /** The cards other than `c`. */
  function RemoveAll(cards: seq<Label>, c: Label): (r: seq<Label>)
    ensures c !in r
    ensures |r| + multiset(cards)[c] == |cards|
    ensures forall x :: x != c ==> multiset(r)[x] == multiset(cards)[x]
  {
    if cards == [] then []
    else
      assert cards == [cards[0]] + cards[1..];
      var rest := RemoveAll(cards[1..], c);
      if cards[0] == c then rest else [cards[0]] + rest
  }

  /** The sizes of the label groups (`sorted().group_by(..)` then `count()`): the first
      card's group, then the groups of the cards with that label taken out. */
  function Groups(cards: seq<Label>): (r: seq<nat>)
    decreases |cards|
  {
    if cards == [] then []
    else [multiset(cards)[cards[0]]] + Groups(RemoveAll(cards, cards[0]))
  }

  /** `HandType::get_hand_type`, with its checks in the source's order. */
  function HandTypeOf(cards: seq<Label>): Option<HandType> {
    var groups := Groups(cards);
    var pairs := multiset(groups)[2];
    if AllEqual(cards) then Some(FiveOfAKind)
    else if AllUnique(cards) then Some(HighCard)
    else if 4 in groups then Some(FourOfAKind)
    else if 3 in groups && 2 in groups then Some(FullHouse)
    else if 3 in groups then Some(ThreeOfAKind)
    else if pairs == 2 then Some(TwoPair)
    else if pairs == 1 then Some(OnePair)
    else None
  }

  /** The groups are exactly the multiplicities of the labels in the hand. */
  lemma {:induction false} GroupsAreMultiplicities(cards: seq<Label>, n: nat)
    ensures n in Groups(cards) <==> exists i :: 0 <= i < |cards| && multiset(cards)[cards[i]] == n
    decreases |cards|
  {
    if cards != [] {
      var c := cards[0];
      var rest := RemoveAll(cards, c);
      GroupsAreMultiplicities(rest, n);
      assert Groups(cards) == [multiset(cards)[c]] + Groups(rest);
      if exists i :: 0 <= i < |rest| && multiset(rest)[rest[i]] == n {
        var i :| 0 <= i < |rest| && multiset(rest)[rest[i]] == n;
        var j := LiftWitness(cards, rest, i);
      }
      if exists i :: 0 <= i < |cards| && multiset(cards)[cards[i]] == n {
        var i :| 0 <= i < |cards| && multiset(cards)[cards[i]] == n;
        if cards[i] != c {
          var j := LowerWitness(cards, rest, i);
        }
      }
    }
  }

  /** A card left after taking out the first label is a card of the hand, as often. */
  lemma {:induction false} LiftWitness(cards: seq<Label>, rest: seq<Label>, i: nat) returns (j: nat)
    requires cards != [] && rest == RemoveAll(cards, cards[0]) && i < |rest|
    ensures j < |cards| && cards[j] == rest[i] && multiset(cards)[cards[j]] == multiset(rest)[rest[i]]
  {
    assert rest[i] in multiset(rest);
    assert rest[i] in multiset(cards);
    j :| 0 <= j < |cards| && cards[j] == rest[i];
  }

  /** A card with another label than the first stays, as often, when that label is taken
      out. */
  lemma {:induction false} LowerWitness(cards: seq<Label>, rest: seq<Label>, i: nat) returns (j: nat)
    requires cards != [] && rest == RemoveAll(cards, cards[0]) && i < |cards| && cards[i] != cards[0]
    ensures j < |rest| && rest[j] == cards[i] && multiset(rest)[rest[j]] == multiset(cards)[cards[i]]
  {
    assert cards[i] in multiset(cards);
    assert cards[i] in multiset(rest);
    j :| 0 <= j < |rest| && rest[j] == cards[i];
  }

  /** Every group is non-empty and the groups together hold every card. */
  lemma {:induction false} GroupsCover(cards: seq<Label>)
    ensures Sum(Groups(cards)) == |cards|
    ensures forall k :: 0 <= k < |Groups(cards)| ==> Groups(cards)[k] >= 1
    decreases |cards|
  {
    if cards != [] {
      var rest := RemoveAll(cards, cards[0]);
      GroupsCover(rest);
      assert cards[0] in multiset(cards);
      assert Groups(cards)[1..] == Groups(rest);
    }
  }

  /** A hand whose groups are all singletons has no repeated label. */
  lemma {:induction false} SingletonGroupsUnique(cards: seq<Label>)
    requires forall k :: 0 <= k < |Groups(cards)| ==> Groups(cards)[k] == 1
    ensures AllUnique(cards)
    decreases |cards|
  {
    if cards != [] {
      var c := cards[0];
      assert cards == [c] + cards[1..];
      assert Groups(cards)[0] == multiset(cards)[c];
      assert c !in cards[1..];
      var rest := RemoveAll(cards, c);
      assert rest == cards[1..] by {
        RemoveAllAbsent(cards[1..], c);
      }
      assert Groups(cards)[1..] == Groups(rest);
      SingletonGroupsUnique(rest);
      forall i, j | 0 <= i < j < |cards|
        ensures cards[i] != cards[j]
      {
        if i > 0 {
          assert cards[i] == cards[1..][i - 1] && cards[j] == cards[1..][j - 1];
        } else {
          assert cards[j] in cards[1..];
        }
      }
    }
  }

  lemma {:induction false} RemoveAllAbsent(cards: seq<Label>, c: Label)
    requires c !in cards
    ensures RemoveAll(cards, c) == cards
  {
    if cards != [] {
      RemoveAllAbsent(cards[1..], c);
      assert cards == [cards[0]] + cards[1..];
    }
  }

  /** A group as large as the hand means every card has the same label. */
  lemma {:induction false} FullGroupAllEqual(cards: seq<Label>)
    requires cards != [] && multiset(cards)[cards[0]] == |cards|
    ensures AllEqual(cards)
  {
    forall j | 0 <= j < |cards|
      ensures cards[j] == cards[0]
    {
      if cards[j] != cards[0] {
        assert cards[j] in multiset(cards);
        MultisetTwoLabels(multiset(cards), cards[0], cards[j]);
      }
    }
  }

  lemma {:induction false} MultisetTwoLabels(m: multiset<Label>, a: Label, b: Label)
    requires a != b
    ensures |m| >= m[a] + m[b]
  {
    var rest := m[a := 0][b := 0];
    assert m == rest + multiset{}[a := m[a]][b := m[b]];
  }

  lemma {:induction false} SumAtLeastOneEach(g: seq<nat>, k: nat)
    requires k < |g| && forall i :: 0 <= i < |g| ==> g[i] >= 1
    ensures Sum(g) >= g[k] + |g| - 1
  {
    if k > 0 {
      SumAtLeastOneEach(g[1..], k - 1);
    } else if |g| > 1 {
      SumAtLeastOneEach(g[1..], 0);
    }
  }

  lemma {:induction false} SumAtLeastPairs(g: seq<nat>)
    ensures Sum(g) >= 2 * multiset(g)[2]
  {
    if g != [] {
      SumAtLeastPairs(g[1..]);
      assert g == [g[0]] + g[1..];
    }
  }

  /** Every five-card hand has a hand type: `get_hand_type` never falls through to
      `None` for five cards. */
  lemma {:induction false} FiveCardsClassified(cards: seq<Label>)
    requires |cards| == 5
    ensures HandTypeOf(cards).Some?
  {
    var groups := Groups(cards);
    GroupsCover(cards);
    if !AllEqual(cards) && !AllUnique(cards) && 4 !in groups && 3 !in groups {
      if multiset(groups)[2] == 0 {
        NoPairUnique(cards);
      } else {
        PairsAtMostTwo(cards);
      }
    }
  }

  /** Five cards without a group of three or more and without a pair are all distinct. */
  lemma {:induction false} NoPairUnique(cards: seq<Label>)
    requires |cards| == 5 && !AllEqual(cards) && 4 !in Groups(cards) && 3 !in Groups(cards)
    requires multiset(Groups(cards))[2] == 0
    ensures AllUnique(cards)
  {
    var groups := Groups(cards);
    GroupsOneOrTwo(cards);
    forall k | 0 <= k < |groups|
      ensures groups[k] == 1
    {
      assert groups[k] in multiset(groups);
    }
    SingletonGroupsUnique(cards);
  }

  /** Five cards hold at most two pairs. */
  lemma {:induction false} PairsAtMostTwo(cards: seq<Label>)
    requires |cards| == 5
    ensures multiset(Groups(cards))[2] <= 2
  {
    GroupsCover(cards);
    SumAtLeastPairs(Groups(cards));
  }

  /** Five cards, not all equal, with no group of three or four: every group is a
      single card or a pair. */
  lemma {:induction false} GroupsOneOrTwo(cards: seq<Label>)
    requires |cards| == 5 && !AllEqual(cards) && 4 !in Groups(cards) && 3 !in Groups(cards)
    ensures forall k :: 0 <= k < |Groups(cards)| ==> Groups(cards)[k] == 1 || Groups(cards)[k] == 2
  {
    var groups := Groups(cards);
    GroupsCover(cards);
    forall k | 0 <= k < |groups|
      ensures groups[k] == 1 || groups[k] == 2
    {
      SumAtLeastOneEach(groups, k);
      if groups[k] == 5 {
        assert |groups| == 1;
        assert groups[0] == multiset(cards)[cards[0]];
        FullGroupAllEqual(cards);
      }
    }
  }

  // ---------------------------------------------------------------- Joker substitution

  function JokerCount(cards: seq<Label>): nat {
    multiset(cards)[Joker]
  }

  lemma {:induction false} ReplaceJoker(cards: seq<Label>, i: nat, l: Label)
    requires i < |cards| && cards[i] == Joker && l != Joker
    ensures JokerCount(cards[i := l]) + 1 == JokerCount(cards)
  {
    assert cards == cards[..i] + [cards[i]] + cards[i + 1..];
    assert cards[i := l] == cards[..i] + [l] + cards[i + 1..];
  }

  /** The position of the first Joker (the first arm of the slice pattern that matches). */
  function FirstJoker(cards: seq<Label>): (r: nat)
    requires Joker in cards
    ensures r < |cards| && cards[r] == Joker
    ensures forall k :: 0 <= k < r ==> cards[k] != Joker
  {
    if cards[0] == Joker then 0 else FirstJoker(cards[1..]) + 1
  }

  /** `CardLabel::get_combinations`: a five-card hand with a Joker is expanded through
      its first Joker into all thirteen other labels, recursively; any other hand is
      its own only combination. */
  function Combinations(cards: seq<Label>): seq<seq<Label>>
    decreases JokerCount(cards), 1, 0
  {
    if |cards| == 5 && Joker in cards then
      CombinationsOver(cards, FirstJoker(cards), NonJokers())
    else [cards]
  }

  /** The expansions of `cards` with its Joker at `i` replaced by each of `labels`. */
  function CombinationsOver(cards: seq<Label>, i: nat, labels: seq<Label>): seq<seq<Label>>
    requires i < |cards| && cards[i] == Joker && Joker !in labels
    decreases JokerCount(cards), 0, |labels|
  {
    if labels == [] then []
    else
      var l := labels[|labels| - 1];
      ReplaceJoker(cards, i, l);
      CombinationsOver(cards, i, labels[..|labels| - 1]) + Combinations(cards[i := l])
  }

  /** `h` is one way of filling in the Jokers of `cards` with other labels. */
  predicate Fills(cards: seq<Label>, h: seq<Label>) {
    |h| == |cards| && Joker !in h &&
    forall k :: 0 <= k < |cards| && cards[k] != Joker ==> h[k] == cards[k]
  }

  /** For a five-card hand the combinations are exactly the Joker fillings. */
  lemma {:induction false} CombinationsAreFillings(cards: seq<Label>, h: seq<Label>)
    requires |cards| == 5
    ensures h in Combinations(cards) <==> Fills(cards, h)
    decreases JokerCount(cards), 1, 0
  {
    if Joker in cards {
      var i := FirstJoker(cards);
      CombinationsOverFillings(cards, i, NonJokers(), h);
      if Fills(cards, h) {
        assert h[i] in h;
        NonJokersComplete(h[i]);
        assert Fills(cards[i := h[i]], h);
      }
      if (exists l :: l in NonJokers() && Fills(cards[i := l], h)) {
        var l :| l in NonJokers() && Fills(cards[i := l], h);
        assert Fills(cards, h);
      }
    } else {
      if Fills(cards, h) {
        assert h == cards;
      }
    }
  }

  lemma {:induction false} CombinationsOverFillings(cards: seq<Label>, i: nat, labels: seq<Label>, h: seq<Label>)
    requires |cards| == 5 && i < 5 && cards[i] == Joker && Joker !in labels
    ensures h in CombinationsOver(cards, i, labels) <==> exists l :: l in labels && Fills(cards[i := l], h)
    decreases JokerCount(cards), 0, |labels|
  {
    if labels != [] {
      var l := labels[|labels| - 1];
      var init := labels[..|labels| - 1];
      ReplaceJoker(cards, i, l);
      CombinationsOverFillings(cards, i, init, h);
      CombinationsAreFillings(cards[i := l], h);
      var front := CombinationsOver(cards, i, init);
      assert CombinationsOver(cards, i, labels) == front + Combinations(cards[i := l]);
      assert h in front + Combinations(cards[i := l]) <==> h in front || h in Combinations(cards[i := l]);
      assert labels == init + [l];
      if h in front {
        var m :| m in init && Fills(cards[i := m], h);
        assert m in labels;
      }
      if exists m :: m in labels && Fills(cards[i := m], h) {
        var m :| m in labels && Fills(cards[i := m], h);
        if m != l {
          assert m in init && Fills(cards[i := m], h);
        }
      }
      if h in Combinations(cards[i := l]) {
        assert l in labels && Fills(cards[i := l], h);
      }
    }
  }

  function Pow13(k: nat): (r: nat)
    ensures r >= 1
  {
    if k == 0 then 1 else 13 * Pow13(k - 1)
  }

  /** A five-card hand with k Jokers has 13^k combinations. */
  lemma {:induction false} CombinationsCount(cards: seq<Label>)
    requires |cards| == 5
    ensures |Combinations(cards)| == Pow13(JokerCount(cards))
    decreases JokerCount(cards), 1, 0
  {
    if Joker in cards {
      var i := FirstJoker(cards);
      CombinationsOverCount(cards, i, NonJokers());
    } else {
      assert JokerCount(cards) == 0;
    }
  }

  lemma {:induction false} CombinationsOverCount(cards: seq<Label>, i: nat, labels: seq<Label>)
    requires |cards| == 5 && i < 5 && cards[i] == Joker && Joker !in labels
    ensures JokerCount(cards) >= 1
    ensures |CombinationsOver(cards, i, labels)| == |labels| * Pow13(JokerCount(cards) - 1)
    decreases JokerCount(cards), 0, |labels|
  {
    assert cards[i] in multiset(cards);
    if labels != [] {
      var l := labels[|labels| - 1];
      var init := labels[..|labels| - 1];
      ReplaceJoker(cards, i, l);
      CombinationsOverCount(cards, i, init);
      CombinationsCount(cards[i := l]);
      CombinationsOverStep(cards, i, labels);
    }
  }

  /** One more label adds the combinations of the hand with that label in place. */
  lemma {:induction false} CombinationsOverStep(cards: seq<Label>, i: nat, labels: seq<Label>)
    requires |cards| == 5 && i < 5 && cards[i] == Joker && Joker !in labels && labels != []
    requires var l := labels[|labels| - 1];
      JokerCount(cards[i := l]) + 1 == JokerCount(cards)
      && |Combinations(cards[i := l])| == Pow13(JokerCount(cards[i := l]))
    requires |CombinationsOver(cards, i, labels[..|labels| - 1])|
      == (|labels| - 1) * Pow13(JokerCount(cards) - 1)
    ensures |CombinationsOver(cards, i, labels)| == |labels| * Pow13(JokerCount(cards) - 1)
  {
    var p := Pow13(JokerCount(cards) - 1);
    assert |CombinationsOver(cards, i, labels)| == (|labels| - 1) * p + p;
    MulSucc(|labels| - 1, p);
  }

  lemma {:induction false} MulSucc(a: nat, p: nat)
    ensures (a + 1) * p == a * p + p
  {
  }

  /** A hand without Jokers (or not of five cards) is its own only combination. */
  lemma {:induction false} CombinationsWithoutJoker(cards: seq<Label>)
    requires |cards| != 5 || Joker !in cards
    ensures Combinations(cards) == [cards]
  {
  }

  /** The loops of `get_combinations`, appending each substitution's expansions. */
  method GetCombinations(cards: seq<Label>) returns (result: seq<seq<Label>>)
    ensures result == Combinations(cards)
    decreases JokerCount(cards)
  {
    result := [];
    if |cards| == 5 && Joker in cards {
      var i := FirstJoker(cards);
      var labels := NonJokers();
      for k := 0 to |labels|
        invariant result == CombinationsOver(cards, i, labels[..k])
      {
        ReplaceJoker(cards, i, labels[k]);
        var more := GetCombinations(cards[i := labels[k]]);
        assert labels[..k + 1][..k] == labels[..k];
        result := result + more;
      }
      assert labels[..|labels|] == labels;
    } else {
      result := [cards];
    }
  }

  // ---------------------------------------------------------------- best hand type

  /** The strongest hand type among the hands that have one (`filter_map` then `max`). */
  function Best(hands: seq<seq<Label>>): (r: Option<HandType>)
    ensures r.None? <==> forall k :: 0 <= k < |hands| ==> HandTypeOf(hands[k]).None?
    ensures r.Some? ==> (exists k :: 0 <= k < |hands| && HandTypeOf(hands[k]) == r)
    ensures r.Some? ==> forall k :: 0 <= k < |hands| && HandTypeOf(hands[k]).Some? ==>
                          Strength(HandTypeOf(hands[k]).value) <= Strength(r.value)
  {
    if hands == [] then None
    else
      var rest := Best(hands[1..]);
      BestStep(hands, hands[1..], rest);
      Stronger(HandTypeOf(hands[0]), rest)
  }

  /** The stronger of two optional hand types, the first one on a tie. */
  function Stronger(h: Option<HandType>, b: Option<HandType>): Option<HandType> {
    match (h, b)
    case (None, _) => b
    case (Some(_), None) => h
    case (Some(x), Some(y)) => if Strength(y) > Strength(x) then b else h
  }

  /** The first hand against the best of the others: the step of `Best`. */
  lemma {:induction false} BestStep(hands: seq<seq<Label>>, tail: seq<seq<Label>>, rest: Option<HandType>)
    requires hands != [] && tail == hands[1..]
    requires rest.None? <==> forall k :: 0 <= k < |tail| ==> HandTypeOf(tail[k]).None?
    requires rest.Some? ==> (exists k :: 0 <= k < |tail| && HandTypeOf(tail[k]) == rest)
    requires rest.Some? ==> forall k :: 0 <= k < |tail| && HandTypeOf(tail[k]).Some? ==>
                               Strength(HandTypeOf(tail[k]).value) <= Strength(rest.value)
    ensures var r := Stronger(HandTypeOf(hands[0]), rest);
      (r.None? <==> forall k :: 0 <= k < |hands| ==> HandTypeOf(hands[k]).None?)
      && (r.Some? ==> (exists k :: 0 <= k < |hands| && HandTypeOf(hands[k]) == r))
      && (r.Some? ==> forall k :: 0 <= k < |hands| && HandTypeOf(hands[k]).Some? ==>
                        Strength(HandTypeOf(hands[k]).value) <= Strength(r.value))
  {
    assert forall k :: 1 <= k < |hands| ==> hands[k] == tail[k - 1];
    if rest.Some? {
      var k :| 0 <= k < |tail| && HandTypeOf(tail[k]) == rest;
      assert HandTypeOf(hands[k + 1]) == rest;
    }
  }

  /** `HandType::try_from(&cards)`. */
  function Kind(cards: seq<Label>): Option<HandType> {
    Best(Combinations(cards))
  }

  /** Without Jokers the kind is the plain hand type. */
  lemma {:induction false} KindWithoutJoker(cards: seq<Label>)
    requires Joker !in cards
    ensures Kind(cards) == HandTypeOf(cards)
  {
    CombinationsWithoutJoker(cards);
  }

  /** Every five-card hand has a kind, and it is at least as strong as the type of every
      way of filling in its Jokers. */
  lemma {:induction false} KindOfFiveCards(cards: seq<Label>, h: seq<Label>)
    requires |cards| == 5
    ensures Kind(cards).Some?
    ensures Fills(cards, h) ==> HandTypeOf(h).Some? && Strength(HandTypeOf(h).value) <= Strength(Kind(cards).value)
  {
    var combos := Combinations(cards);
    CombinationsCount(cards);
    CombinationsAreFillings(cards, combos[0]);
    FiveCardsClassified(combos[0]);
    if Fills(cards, h) {
      CombinationsAreFillings(cards, h);
      FiveCardsClassified(h);
      var k :| 0 <= k < |combos| && combos[k] == h;
    }
  }

  // ---------------------------------------------------------------- games and ordering

  datatype Game = Game(cards: seq<Label>, kind: HandType, bid: nat)

  datatype Ordering = Less | Equal | Greater

  function Flip(o: Ordering): Ordering {
    match o
    case Less => Greater
    case Equal => Equal
    case Greater => Less
  }

  /** The cards compared position by position over the shorter hand (`zip`). */
  function CompareCards(xs: seq<Label>, ys: seq<Label>): Ordering {
    if xs == [] || ys == [] then Equal
    else if Rank(xs[0]) < Rank(ys[0]) then Less
    else if Rank(xs[0]) > Rank(ys[0]) then Greater
    else CompareCards(xs[1..], ys[1..])
  }

  /** `Game::cmp`: hand types first, then cards. */
  function Compare(a: Game, b: Game): Ordering {
    if Strength(a.kind) < Strength(b.kind) then Less
    else if Strength(a.kind) > Strength(b.kind) then Greater
    else CompareCards(a.cards, b.cards)
  }

  /** The loop of `Game::cmp` with its early returns. */
  method Cmp(a: Game, b: Game) returns (o: Ordering)
    ensures o == Compare(a, b)
  {
    if Strength(a.kind) < Strength(b.kind) {
      return Less;
    }
    if Strength(a.kind) > Strength(b.kind) {
      return Greater;
    }
    var n := if |a.cards| < |b.cards| then |a.cards| else |b.cards|;
    for i := 0 to n
      invariant CompareCards(a.cards, b.cards) == CompareCards(a.cards[i..], b.cards[i..])
    {
      assert a.cards[i..][1..] == a.cards[i + 1..] && b.cards[i..][1..] == b.cards[i + 1..];
      if Rank(a.cards[i]) < Rank(b.cards[i]) {
        return Less;
      }
      if Rank(a.cards[i]) > Rank(b.cards[i]) {
        return Greater;
      }
    }
    return Equal;
  }

  /** Swapping the games flips the answer. */
  lemma {:induction false} CompareCardsFlip(xs: seq<Label>, ys: seq<Label>)
    ensures CompareCards(ys, xs) == Flip(CompareCards(xs, ys))
  {
    if xs != [] && ys != [] {
      CompareCardsFlip(xs[1..], ys[1..]);
    }
  }

  lemma {:induction false} CompareFlip(a: Game, b: Game)
    ensures Compare(b, a) == Flip(Compare(a, b))
  {
    CompareCardsFlip(a.cards, b.cards);
  }

  /** `Equal` exactly when every compared card is equal. */
  lemma {:induction false} CompareCardsEqual(xs: seq<Label>, ys: seq<Label>)
    ensures CompareCards(xs, ys) == Equal <==>
      forall k :: 0 <= k < |xs| && k < |ys| ==> xs[k] == ys[k]
  {
    if xs != [] && ys != [] {
      CompareCardsEqual(xs[1..], ys[1..]);
      RankInjective(xs[0], ys[0]);
      assert forall k :: 1 <= k < |xs| && k < |ys| ==> xs[k] == xs[1..][k - 1] && ys[k] == ys[1..][k - 1];
    }
  }

  lemma {:induction false} CompareEqual(a: Game, b: Game)
    ensures Compare(a, b) == Equal <==>
      a.kind == b.kind && forall k :: 0 <= k < |a.cards| && k < |b.cards| ==> a.cards[k] == b.cards[k]
  {
    StrengthInjective(a.kind, b.kind);
    CompareCardsEqual(a.cards, b.cards);
  }

  predicate Le(a: Game, b: Game) {
    Compare(a, b) != Greater
  }

  lemma {:induction false} CompareCardsTransitive(xs: seq<Label>, ys: seq<Label>, zs: seq<Label>)
    requires |xs| == |ys| == |zs|
    requires CompareCards(xs, ys) != Greater && CompareCards(ys, zs) != Greater
    ensures CompareCards(xs, zs) != Greater
  {
    if xs != [] && Rank(xs[0]) == Rank(ys[0]) == Rank(zs[0]) {
      CompareCardsTransitive(xs[1..], ys[1..], zs[1..]);
    }
  }

  /** Over hands of one length the order is transitive (over hands of different lengths
      the comparison stops at the shorter one and is not). */
  lemma {:induction false} LeTransitive(a: Game, b: Game, c: Game)
    requires |a.cards| == |b.cards| == |c.cards|
    requires Le(a, b) && Le(b, c)
    ensures Le(a, c)
  {
    if Strength(a.kind) == Strength(b.kind) == Strength(c.kind) {
      CompareCardsTransitive(a.cards, b.cards, c.cards);
    }
  }

  // ---------------------------------------------------------------- sorting and scoring

  /** `sorted()`, a stable sort: each game is inserted after every game not greater. */
  function Insert(sorted: seq<Game>, g: Game): (r: seq<Game>)
    ensures multiset(r) == multiset(sorted) + multiset{g}
  {
    if sorted == [] then [g]
    else
      var last := sorted[|sorted| - 1];
      var init := sorted[..|sorted| - 1];
      assert sorted == init + [last];
      if Compare(last, g) == Greater then Insert(init, g) + [last] else sorted + [g]
  }

  function Sort(games: seq<Game>): (r: seq<Game>)
    ensures multiset(r) == multiset(games)
  {
    if games == [] then []
    else
      assert games == games[..|games| - 1] + [games[|games| - 1]];
      Insert(Sort(games[..|games| - 1]), games[|games| - 1])
  }

  predicate Sorted(s: seq<Game>) {
    forall i, j :: 0 <= i < j < |s| ==> Le(s[i], s[j])
  }

  predicate SameLength(s: seq<Game>, n: nat) {
    forall i :: 0 <= i < |s| ==> |s[i].cards| == n
  }

  lemma {:induction false} InsertSorted(sorted: seq<Game>, g: Game, n: nat)
    requires Sorted(sorted) && SameLength(sorted, n) && |g.cards| == n
    ensures Sorted(Insert(sorted, g))
    ensures SameLength(Insert(sorted, g), n)
    decreases |sorted|
  {
    if sorted != [] {
      var last := sorted[|sorted| - 1];
      var init := sorted[..|sorted| - 1];
      if Compare(last, g) == Greater {
        InsertSorted(init, g, n);
        InsertBefore(sorted, g, n);
      } else {
        InsertAfter(sorted, g, n);
      }
    }
  }

  /** A game not less than the last one goes at the end. */
  lemma {:induction false} InsertAfter(sorted: seq<Game>, g: Game, n: nat)
    requires Sorted(sorted) && SameLength(sorted, n) && |g.cards| == n
    requires sorted != [] && Compare(sorted[|sorted| - 1], g) != Greater
    ensures Sorted(Insert(sorted, g)) && SameLength(Insert(sorted, g), n)
  {
    var last := sorted[|sorted| - 1];
    assert Insert(sorted, g) == sorted + [g];
    forall i | 0 <= i < |sorted|
      ensures Le(sorted[i], g)
    {
      if i < |sorted| - 1 {
        LeTransitive(sorted[i], last, g);
      }
    }
  }

  /** A game less than the last one goes before it: the last game stays last. */
  lemma {:induction false} InsertBefore(sorted: seq<Game>, g: Game, n: nat)
    requires Sorted(sorted) && SameLength(sorted, n) && |g.cards| == n
    requires sorted != [] && Compare(sorted[|sorted| - 1], g) == Greater
    requires var init := sorted[..|sorted| - 1];
      Sorted(Insert(init, g)) && SameLength(Insert(init, g), n)
    ensures Sorted(Insert(sorted, g)) && SameLength(Insert(sorted, g), n)
  {
    var last := sorted[|sorted| - 1];
    var init := sorted[..|sorted| - 1];
    var front := Insert(init, g);
    assert Insert(sorted, g) == front + [last];
    CompareFlip(last, g);
    forall i | 0 <= i < |front|
      ensures Le(front[i], last)
    {
      assert front[i] in multiset(init) + multiset{g};
      if front[i] != g {
        assert front[i] in init;
      }
    }
  }

  /** Over hands of one length the sort yields an ascending permutation. */
  lemma {:induction false} SortSorted(games: seq<Game>, n: nat)
    requires SameLength(games, n)
    ensures Sorted(Sort(games)) && SameLength(Sort(games), n)
    ensures multiset(Sort(games)) == multiset(games)
  {
    if games != [] {
      SortSorted(games[..|games| - 1], n);
      InsertSorted(Sort(games[..|games| - 1]), games[|games| - 1], n);
    }
  }

  /** The bids weighted by 1-based rank. */
  function Winnings(ranked: seq<Game>): nat {
    if ranked == [] then 0
    else Winnings(ranked[..|ranked| - 1]) + ranked[|ranked| - 1].bid * |ranked|
  }

  /** Every game wins at least its bid. */
  lemma {:induction false} WinningsAtLeastBids(ranked: seq<Game>)
    ensures Winnings(ranked) >= Bids(ranked)
  {
    if ranked != [] {
      WinningsAtLeastBids(ranked[..|ranked| - 1]);
    }
  }

  function Bids(games: seq<Game>): nat {
    if games == [] then 0 else Bids(games[..|games| - 1]) + games[|games| - 1].bid
  }

  // ---------------------------------------------------------------- parsing

  function ParseLabels(s: string): (r: Option<seq<Label>>)
    ensures r.Some? ==> |r.value| == |s| && forall k :: 0 <= k < |s| ==> LabelOf(s[k]) == Some(r.value[k])
  {
    if s == [] then Some([])
    else match (LabelOf(s[0]), ParseLabels(s[1..]))
      case (Some(l), Some(ls)) => Some([l] + ls)
      case _ => None
  }

  /** `Game::from_str`: exactly two space-separated parts, every card label valid, a
      hand type found, and a numeric bid. */
  function ParseGame(line: string): (r: Option<Game>)
    ensures r.Some? ==> |SplitChar(line, ' ')| == 2
    ensures r.Some? ==> Kind(r.value.cards) == Some(r.value.kind)
  {
    var parts := SplitChar(line, ' ');
    if |parts| != 2 then None
    else match (ParseLabels(parts[0]), ParseNat(parts[1]))
      case (Some(cards), Some(bid)) =>
        (match Kind(cards)
         case Some(kind) => Some(Game(cards, kind, bid))
         case None => None)
      case _ => None
  }

  function ParseGames(lines: seq<string>): (r: Option<seq<Game>>)
    ensures r.Some? ==> |r.value| == |lines|
    ensures r.Some? ==> forall k :: 0 <= k < |lines| ==> ParseGame(lines[k]) == Some(r.value[k])
  {
    if lines == [] then Some([])
    else match (ParseGame(lines[0]), ParseGames(lines[1..]))
      case (Some(g), Some(gs)) => Some([g] + gs)
      case _ => None
  }

  /** `line.replace('J', "X")`. */
  function JacksToJokers(line: string): (r: string)
    ensures |r| == |line| && 'J' !in r
    ensures forall k :: 0 <= k < |line| ==> r[k] == (if line[k] == 'J' then 'X' else line[k])
  {
    seq(|line|, k requires 0 <= k < |line| => if line[k] == 'J' then 'X' else line[k])
  }

  /** After the rewrite no hand holds a Jack: every 'J' has become a Joker. */
  lemma {:induction false} NoJacksInPartTwo(line: string)
    ensures ParseGame(JacksToJokers(line)).Some? ==> J !in ParseGame(JacksToJokers(line)).value.cards
  {
    var s := JacksToJokers(line);
    if ParseGame(s).Some? {
      var parts := SplitChar(s, ' ');
      GameCards(s);
      assert Join(parts, " ") == s by {
        JoinSplit(s, " ");
      }
      JoinNoChar(parts, " ", 'J');
      LabelsWithoutJack(parts[0], ParseGame(s).value.cards);
    }
  }

  /** A parsed game's cards are the labels of its first part. */
  lemma {:induction false} GameCards(line: string)
    requires ParseGame(line).Some?
    ensures |SplitChar(line, ' ')| == 2
    ensures ParseLabels(SplitChar(line, ' ')[0]) == Some(ParseGame(line).value.cards)
  {
  }

  /** Labels read from a text without 'J' hold no Jack. */
  lemma {:induction false} LabelsWithoutJack(t: string, cards: seq<Label>)
    requires ParseLabels(t) == Some(cards) && 'J' !in t
    ensures J !in cards
  {
    forall k | 0 <= k < |cards|
      ensures cards[k] != J
    {
      assert t[k] in t;
      assert CharOf(cards[k]) == t[k];
    }
  }

  lemma {:induction false} JoinNoChar(parts: seq<string>, sep: string, c: char)
    requires c !in Join(parts, sep)
    ensures forall k :: 0 <= k < |parts| ==> c !in parts[k]
  {
    if |parts| > 1 {
      assert Join(parts, sep) == parts[0] + sep + Join(parts[1..], sep);
      JoinNoChar(parts[1..], sep, c);
      assert forall k :: 1 <= k < |parts| ==> parts[k] == parts[1..][k - 1];
    }
  }

  function Total(games: Option<seq<Game>>): Option<nat> {
    match games
    case None => None
    case Some(gs) => Some(Winnings(Sort(gs)))
  }

  /** `part_one`: the bids weighted by rank in sorted order; any malformed line makes
      `expect` panic. */
  function PartOne(input: string): (r: Option<nat>)
    ensures r.Some? <==> ParseGames(Lines(input)).Some?
    ensures r.Some? ==> r.value == Winnings(Sort(ParseGames(Lines(input)).value))
  {
    Total(ParseGames(Lines(input)))
  }

  /** Every line with its Jacks rewritten to Jokers. */
  function Rewritten(lines: seq<string>): (r: seq<string>)
    ensures |r| == |lines| && forall k :: 0 <= k < |lines| ==> r[k] == JacksToJokers(lines[k])
  {
    seq(|lines|, k requires 0 <= k < |lines| => JacksToJokers(lines[k]))
  }

  /** `part_two`: the same after every 'J' is read as a Joker. */
  function PartTwo(input: string): (r: Option<nat>)
    ensures r.Some? <==> ParseGames(Rewritten(Lines(input))).Some?
    ensures r.Some? ==> r.value == Winnings(Sort(ParseGames(Rewritten(Lines(input))).value))
  {
    Total(ParseGames(Rewritten(Lines(input))))
  }
}
