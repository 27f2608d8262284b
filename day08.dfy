/** Day 8: the desert network. A walker follows the left/right instructions round and
    round from a start node until it reaches a goal; several walkers are combined with
    the least common multiple of their step counts. */
module Day08Network {
  import opened Prelude

  datatype Instruction = Left | Right

  datatype Node = Node(id: string, left: string, right: string)

  /** `Map`: the instruction list and the nodes by id. */
  datatype Network = Network(instructions: seq<Instruction>, nodes: map<string, Node>)

  /** Every node is stored under its own id, as `Map::from_str` builds the map. */
  predicate KeyedById(nodes: map<string, Node>) {
    forall id :: id in nodes ==> nodes[id].id == id
  }

  /** The node a walker at `n` moves to under `instr` (`map.nodes[..]`, which panics on
      an unknown id). */
  function Move(net: Network, n: Node, instr: Instruction): Option<Node> {
    var next := if instr == Left then n.left else n.right;
    if next in net.nodes then Some(net.nodes[next]) else None
  }

  /** Where a walker from `start` stands after `k` steps; step j uses instruction
      j mod (number of instructions). None once a step panics. */
  function At(net: Network, start: Node, k: nat): Option<Node> {
    if k == 0 then Some(start)
    else match At(net, start, k - 1)
      case None => None
      case Some(n) =>
        if |net.instructions| == 0 then None
        else Move(net, n, net.instructions[(k - 1) % |net.instructions|])
  }

  /** One step from a known position. */
  lemma {:induction false} AtNext(net: Network, start: Node, k: nat, n: Node)
    requires At(net, start, k) == Some(n) && |net.instructions| > 0
    ensures At(net, start, k + 1) == Move(net, n, net.instructions[k % |net.instructions|])
  {
  }

  /** A walker that has panicked stays panicked. */
  lemma {:induction false} AtStuck(net: Network, start: Node, j: nat, k: nat)
    requires j <= k && At(net, start, j).None?
    ensures At(net, start, k).None?
    decreases k - j
  {
    if j < k {
      AtStuck(net, start, j, k - 1);
    }
  }

  datatype Goal = Named(id: string) | Suffix(c: char)

  predicate EndsWith(s: string, c: char) {
    |s| > 0 && s[|s| - 1] == c
  }

  predicate Reached(goal: Goal, id: string) {
    match goal
    case Named(g) => id == g
    case Suffix(c) => EndsWith(id, c)
  }

  predicate ArrivesAt(net: Network, start: Node, goal: Goal, k: nat) {
    At(net, start, k).Some? && Reached(goal, At(net, start, k).value.id)
  }

  /** The first step count, from `k` up to `fuel`, at which the walker stands on a goal. */
  function ArrivalFrom(net: Network, start: Node, goal: Goal, k: nat, fuel: nat): (r: Option<nat>)
    decreases fuel - k
  {
    if k > fuel then None
    else match At(net, start, k)
      case None => None
      case Some(n) => if Reached(goal, n.id) then Some(k) else ArrivalFrom(net, start, goal, k + 1, fuel)
  }

  function Arrival(net: Network, start: Node, goal: Goal, fuel: nat): Option<nat> {
    ArrivalFrom(net, start, goal, 0, fuel)
  }

  lemma {:induction false} ArrivalFromStep(net: Network, start: Node, goal: Goal, k: nat, fuel: nat, n: Node)
    requires At(net, start, k) == Some(n)
    ensures k <= fuel && Reached(goal, n.id) ==> ArrivalFrom(net, start, goal, k, fuel) == Some(k)
    ensures k <= fuel && !Reached(goal, n.id) ==>
      ArrivalFrom(net, start, goal, k, fuel) == ArrivalFrom(net, start, goal, k + 1, fuel)
  {
  }

  lemma {:induction false} ArrivalFromStuck(net: Network, start: Node, goal: Goal, k: nat, fuel: nat)
    requires At(net, start, k).None?
    ensures ArrivalFrom(net, start, goal, k, fuel).None?
  {
  }

  /** `ArrivalFrom` finds the first arrival at or after `k`, and finds nothing only if
      there is none up to `fuel`. */
  lemma {:induction false} ArrivalFromFirst(net: Network, start: Node, goal: Goal, k: nat, fuel: nat)
    requires forall j :: 0 <= j < k ==> !ArrivesAt(net, start, goal, j)
    ensures ArrivalFrom(net, start, goal, k, fuel).Some? ==>
      (var s := ArrivalFrom(net, start, goal, k, fuel).value;
       k <= s <= fuel && ArrivesAt(net, start, goal, s) &&
       forall j :: 0 <= j < s ==> !ArrivesAt(net, start, goal, j))
    ensures ArrivalFrom(net, start, goal, k, fuel).None? ==>
      forall j :: 0 <= j <= fuel ==> !ArrivesAt(net, start, goal, j)
    decreases fuel - k
  {
    if k <= fuel {
      match At(net, start, k)
      case None =>
        forall j | k <= j <= fuel
          ensures !ArrivesAt(net, start, goal, j)
        {
          AtStuck(net, start, k, j);
        }
      case Some(n) =>
        if !Reached(goal, n.id) {
          ArrivalFromFirst(net, start, goal, k + 1, fuel);
        }
    }
  }

  /** The number of steps is the first arrival at a goal (or nothing within `fuel`). */
  lemma {:induction false} ArrivalFirst(net: Network, start: Node, goal: Goal, fuel: nat)
    ensures Arrival(net, start, goal, fuel).Some? ==>
      (var s := Arrival(net, start, goal, fuel).value;
       s <= fuel && ArrivesAt(net, start, goal, s) &&
       forall j :: 0 <= j < s ==> !ArrivesAt(net, start, goal, j))
    ensures Arrival(net, start, goal, fuel).None? ==>
      forall j :: 0 <= j <= fuel ==> !ArrivesAt(net, start, goal, j)
  {
    ArrivalFromFirst(net, start, goal, 0, fuel);
  }

  lemma {:induction false} MulAtLeast(n: nat, d: nat)
    requires d >= 1
    ensures n * d >= n
    decreases d
  {
    if d > 1 {
      MulAtLeast(n, d - 1);
      Distrib(n, d - 1, 1);
    }
  }

  lemma {:induction false} Assoc(x: int, y: int, z: int)
    ensures (x * y) * z == x * (y * z)
  {
  }

  /** Euclidean division is unique: a quotient and remainder in range are the ones. */
  lemma {:induction false} DivModUnique(x: nat, n: nat, q: nat, r: nat)
    requires n > 0 && r < n && x == n * q + r
    ensures x / n == q && x % n == r
  {
    var q0, r0 := x / n, x % n;
    assert x == n * q0 + r0;
    if q > q0 {
      Distrib(n, q0, q - q0);
      MulAtLeast(n, q - q0);
    } else if q < q0 {
      Distrib(n, q, q0 - q);
      MulAtLeast(n, q0 - q);
    }
  }

  lemma {:induction false} ModSucc(k: nat, n: nat)
    requires n > 0
    ensures (k % n + 1) % n == (k + 1) % n
  {
    var q, r := k / n, k % n;
    assert k == n * q + r;
    if r + 1 < n {
      DivModUnique(k + 1, n, q, r + 1);
      DivModUnique(r + 1, n, 0, r + 1);
    } else {
      Distrib(n, q, 1);
      DivModUnique(k + 1, n, q + 1, 0);
      DivModUnique(n, n, 1, 0);
    }
  }

  /** The walking loop of `part_one` and of each start in `part_two`; `fuel` bounds the
      number of steps, where the program would loop for ever. */
  method CountSteps(net: Network, start: Node, goal: Goal, fuel: nat) returns (r: Option<nat>)
    ensures r == Arrival(net, start, goal, fuel)
  {
    var curr := start;
    var index := 0;
    var steps := 0;
    while !Reached(goal, curr.id)
      invariant steps <= fuel
      invariant At(net, start, steps) == Some(curr)
      invariant |net.instructions| > 0 ==> index == steps % |net.instructions|
      invariant Arrival(net, start, goal, fuel) == ArrivalFrom(net, start, goal, steps, fuel)
      decreases fuel - steps
    {
      ArrivalFromStep(net, start, goal, steps, fuel, curr);
      if steps == fuel {
        assert ArrivalFrom(net, start, goal, steps + 1, fuel).None?;
        return None;
      }
      if |net.instructions| == 0 {
        ArrivalFromStuck(net, start, goal, steps + 1, fuel);
        return None;
      }
      var next := Move(net, curr, net.instructions[index]);
      AtNext(net, start, steps, curr);
      if next.None? {
        ArrivalFromStuck(net, start, goal, steps + 1, fuel);
        return None;
      }
      curr := next.value;
      ModSucc(steps, |net.instructions|);
      index := (index + 1) % |net.instructions|;
      steps := steps + 1;
    }
    ArrivalFromStep(net, start, goal, steps, fuel, curr);
    return Some(steps);
  }

  /** The instruction index always stays in range. */
  lemma {:induction false} IndexInRange(k: nat, n: nat)
    requires n > 0
    ensures 0 <= (k + 1) % n < n
  {
  }

  // ---------------------------------------------------------------- lcm

  /** `num::integer::gcd` on naturals (Euclid). */
  function Gcd(a: nat, b: nat): nat
    decreases b
  {
    if b == 0 then a else Gcd(b, a % b)
  }

  /** The gcd divides both arguments: the quotients are returned. */
  lemma {:induction false} GcdDivides(a: nat, b: nat) returns (p: nat, q: nat)
    ensures a == Gcd(a, b) * p && b == Gcd(a, b) * q
    decreases b
  {
    if b == 0 {
      p, q := 1, 0;
    } else {
      var g := Gcd(a, b);
      var p', q' := GcdDivides(b, a % b);
      var t := a / b;
      assert a == b * t + a % b;
      Factor(b, a % b, g, p', q', t);
      p, q := p' * t + q', p';
    }
  }

  /** Common factor: from b == g p' and m == g q', b t + m == g (p' t + q'). */
  lemma {:induction false} Factor(b: nat, m: nat, g: nat, p': nat, q': nat, t: nat)
    requires b == g * p' && m == g * q'
    ensures b * t + m == g * (p' * t + q')
  {
    Assoc(g, p', t);
    Distrib(g, p' * t, q');
  }

  lemma {:induction false} GcdPositive(a: nat, b: nat)
    requires a > 0 || b > 0
    ensures Gcd(a, b) > 0
    decreases b
  {
    if b > 0 {
      GcdPositive(b, a % b);
    }
  }

  /** `num::integer::lcm`: a * (b / gcd(a, b)), and 0 when either is 0. */
  function Lcm(a: nat, b: nat): nat {
    if a == 0 && b == 0 then 0
    else
      GcdPositive(a, b);
      TimesQuotient(a, b, Gcd(a, b))
  }

  /** a * (b / g), kept apart from Gcd's definition. */
  function TimesQuotient(a: nat, b: nat, g: nat): nat
    requires g > 0
  {
    a * (b / g)
  }

  ghost predicate Multiple(m: nat, c: nat) {
    exists k: nat :: m == c * k
  }

  lemma {:induction false} DivExact(b: nat, g: nat, q: nat)
    requires g > 0 && b == g * q
    ensures b / g == q
  {
    DivModUnique(b, g, q, 0);
  }

  /** The lcm is a common multiple of its arguments, and positive for positive ones. */
  lemma {:induction false} LcmCommonMultiple(a: nat, b: nat)
    ensures Multiple(Lcm(a, b), a) && Multiple(Lcm(a, b), b)
    ensures a > 0 && b > 0 ==> Lcm(a, b) > 0
  {
    if a == 0 && b == 0 {
      assert Lcm(a, b) == a * 0;
    } else {
      GcdPositive(a, b);
      var g := Gcd(a, b);
      var p, q := GcdDivides(a, b);
      DivExact(b, g, q);
      assert Lcm(a, b) == a * q;
      assert a * q == b * p by {
        assert a * q == g * p * q && b * p == g * q * p;
      }
      if a > 0 && b > 0 {
        assert q > 0;
      }
    }
  }

  /** Extended Euclid: the gcd is an integer combination of the arguments. */
  lemma {:induction false} Bezout(a: nat, b: nat) returns (x: int, y: int)
    ensures a * x + b * y == Gcd(a, b)
    decreases b
  {
    if b == 0 {
      x, y := 1, 0;
    } else {
      var x', y' := Bezout(b, a % b);
      var t := a / b;
      var m := a % b;
      assert a == b * t + m;
      x, y := y', x' - t * y';
      calc {
        a * x + b * y;
        (b * t + m) * y' + b * (x' - t * y');
        { Regroup(b, t, m, x', y'); }
        b * x' + m * y';
      }
    }
  }

  lemma {:induction false} Regroup(b: int, t: int, m: int, x': int, y': int)
    ensures (b * t + m) * y' + b * (x' - t * y') == b * x' + m * y'
  {
    assert (b * t + m) * y' == b * t * y' + m * y';
    assert b * (x' - t * y') == b * x' - b * (t * y');
    Assoc(b, t, y');
  }

  /** The lcm divides every common multiple of positive arguments: it is the least one. */
  lemma {:induction false} LcmLeast(a: nat, b: nat, m: nat)
    requires a > 0 && b > 0 && Multiple(m, a) && Multiple(m, b)
    ensures Multiple(m, Lcm(a, b))
  {
    GcdPositive(a, b);
    var g := Gcd(a, b);
    var p, q := GcdDivides(a, b);
    DivExact(b, g, q);
    var l := Lcm(a, b);
    assert l == a * q;
    var s: nat :| m == a * s;
    var t: nat :| m == b * t;
    var x, y := Bezout(a, b);
    var k := t * x + s * y;
    assert g * m == g * (l * k) by {
      CommonMultipleScaled(a, b, g, q, m, s, t, x, y);
    }
    CancelFactor(g, m, l * k);
    assert m == l * k;
    assert l > 0 by { MulPositive(a, q); }
    if k < 0 {
      NegativeProduct(l, k);
    }
    var kn: nat := k;
    assert m == l * kn;
  }

  lemma {:induction false} MulPositive(a: nat, q: nat)
    requires a > 0 && q > 0
    ensures a * q > 0
  {
  }

  lemma {:induction false} NegativeProduct(l: int, k: int)
    requires l > 0 && k < 0
    ensures l * k < 0
  {
  }

  lemma {:induction false} CancelFactor(g: int, u: int, v: int)
    requires g > 0 && g * u == g * v
    ensures u == v
  {
  }

  /** g * m == g * (a * q * (t x + s y)) when m == a s == b t, b == g q and
      a x + b y == g. */
  lemma {:induction false} CommonMultipleScaled(a: int, b: int, g: int, q: int, m: int, s: int, t: int, x: int, y: int)
    requires b == g * q && m == a * s && m == b * t && a * x + b * y == g
    ensures g * m == g * ((a * q) * (t * x + s * y))
  {
    calc {
      g * ((a * q) * (t * x + s * y));
      (a * (g * q)) * (t * x + s * y);
      (a * b) * (t * x + s * y);
      (a * b) * (t * x) + (a * b) * (s * y);
      (a * x) * (b * t) + (b * y) * (a * s);
      (a * x) * m + (b * y) * m;
      (a * x + b * y) * m;
      g * m;
    }
  }

  lemma {:induction false} MultipleTransitive(m: nat, l: nat, c: nat)
    requires Multiple(m, l) && Multiple(l, c)
    ensures Multiple(m, c)
  {
    var x: nat :| m == l * x;
    var y: nat :| l == c * y;
    assert m == c * (y * x);
  }

  // ---------------------------------------------------------------- the two parts

  function StartIds(net: Network): set<string> {
    set id | id in net.nodes && EndsWith(id, 'A')
  }

  /** The walk of `part_one`: from "AAA" to "ZZZ"; a missing "AAA" panics. */
  method StepsToZZZ(net: Network, fuel: nat) returns (r: Option<nat>)
    ensures "AAA" !in net.nodes ==> r.None?
    ensures "AAA" in net.nodes ==> r == Arrival(net, net.nodes["AAA"], Named("ZZZ"), fuel)
  {
    if "AAA" !in net.nodes {
      return None;
    }
    r := CountSteps(net, net.nodes["AAA"], Named("ZZZ"), fuel);
  }

  /** The number of steps from start `id` to an id ending in 'Z'. */
  function GhostArrival(net: Network, id: string, fuel: nat): Option<nat>
    requires id in net.nodes
  {
    Arrival(net, net.nodes[id], Suffix('Z'), fuel)
  }

  /** `m` is a multiple of the step count of every start in `ids`, each of which arrives. */
  ghost predicate CommonMultiple(net: Network, ids: set<string>, fuel: nat, m: nat)
    requires ids <= net.nodes.Keys
  {
    forall id :: id in ids ==> GhostArrival(net, id, fuel).Some? && Multiple(m, GhostArrival(net, id, fuel).value)
  }

  /** The walks of `part_two`: every node whose id ends in 'A' walks to an id ending in
      'Z', and the step counts are folded with lcm from 1. The answer is therefore the
      least common multiple of the counts: a positive multiple of each that divides every
      other common multiple. A start that never arrives (or whose walk reaches a missing
      node) gives None. The starts are taken in no particular order, as a hash map yields
      them. */
  method GhostSteps(net: Network, fuel: nat) returns (r: Option<nat>)
    requires KeyedById(net.nodes)
    ensures r.None? <==> exists id :: id in StartIds(net) && GhostArrival(net, id, fuel).None?
    ensures r.Some? ==> r.value >= 1 && CommonMultiple(net, StartIds(net), fuel, r.value)
    ensures r.Some? ==> forall m: nat :: CommonMultiple(net, StartIds(net), fuel, m) ==> Multiple(m, r.value)
  {
    var remaining := StartIds(net);
    var done: set<string> := {};
    var acc: nat := 1;
    forall m: nat {
      MultipleOfOne(m);
    }
    while remaining != {}
      invariant remaining + done == StartIds(net) && remaining !! done
      invariant acc >= 1
      invariant CommonMultiple(net, done, fuel, acc)
      invariant forall m: nat :: CommonMultiple(net, done, fuel, m) ==> Multiple(m, acc)
      decreases |remaining|
    {
      var id :| id in remaining;
      var steps := CountSteps(net, net.nodes[id], Suffix('Z'), fuel);
      if steps.None? {
        assert GhostArrival(net, id, fuel).None?;
        return None;
      }
      var c := steps.value;
      // the walk starts on an id ending in 'A', which is not a goal
      ArrivalFirst(net, net.nodes[id], Suffix('Z'), fuel);
      assert c >= 1;
      LcmCommonMultiple(acc, c);
      var next := Lcm(acc, c);
      forall d | d in done
        ensures Multiple(next, GhostArrival(net, d, fuel).value)
      {
        MultipleTransitive(next, acc, GhostArrival(net, d, fuel).value);
      }
      forall m: nat | CommonMultiple(net, done + {id}, fuel, m)
        ensures Multiple(m, next)
      {
        assert CommonMultiple(net, done, fuel, m);
        LcmLeast(acc, c, m);
      }
      acc := next;
      remaining := remaining - {id};
      done := done + {id};
    }
    assert done == StartIds(net);
    return Some(acc);
  }

  /** 1 divides everything, so the fold may start from it. */
  lemma {:induction false} MultipleOfOne(m: nat)
    ensures Multiple(m, 1)
  {
    assert m == 1 * m;
  }

  // ---------------------------------------------------------------- parsing

  function ParseInstruction(c: char): Option<Instruction> {
    if c == 'R' then Some(Right) else if c == 'L' then Some(Left) else None
  }

  /** The first line: 'R' and 'L' only, any other character panics. */
  function ParseInstructions(s: string): (r: Option<seq<Instruction>>)
    ensures r.Some? <==> forall k :: 0 <= k < |s| ==> s[k] == 'R' || s[k] == 'L'
    ensures r.Some? ==> (|r.value| == |s| &&
                         forall k :: 0 <= k < |s| ==> r.value[k] == (if s[k] == 'R' then Right else Left))
  {
    if s == [] then Some([])
    else match (ParseInstruction(s[0]), ParseInstructions(s[1..]))
      case (Some(i), Some(rest)) => Some([i] + rest)
      case (None, _) => None
      case (_, None) =>
        assert !(s[1..][0] == 'R' || s[1..][0] == 'L') || exists k :: 0 <= k < |s[1..]| && !(s[1..][k] == 'R' || s[1..][k] == 'L');
        None
  }

  /** The first two pieces of a split, trimmed (`tuples().next().unwrap()`). */
  function FirstTwo(pieces: seq<string>): Option<(string, string)> {
    if |pieces| < 2 then None else Some((Trim(pieces[0]), Trim(pieces[1])))
  }

  /** "ID = (LEFT, RIGHT)". */
  function ParseNode(line: string): (r: Option<Node>)
  {
    match FirstTwo(SplitChar(line, '='))
    case None => None
    case Some((id, children)) =>
      match FirstTwo(SplitChar(Remove(Remove(children, '('), ')'), ','))
      case None => None
      case Some((left, right)) => Some(Node(id, left, right))
  }

  /** The node lines collected into a map; an id seen twice keeps its last node. */
  function ParseNodes(lines: seq<string>, acc: map<string, Node>): (r: Option<map<string, Node>>)
    requires KeyedById(acc)
    ensures r.Some? ==> KeyedById(r.value) && acc.Keys <= r.value.Keys
  {
    if lines == [] then Some(acc)
    else if lines[0] == "" then ParseNodes(lines[1..], acc)
    else match ParseNode(lines[0])
      case None => None
      case Some(n) =>
        InsertKeyed(acc, n);
        ParseNodes(lines[1..], acc[n.id := n])
  }

  lemma {:induction false} InsertKeyed(acc: map<string, Node>, n: Node)
    requires KeyedById(acc)
    ensures KeyedById(acc[n.id := n]) && acc.Keys <= acc[n.id := n].Keys
  {
  }

  /** `Map::from_str`. */
  function ParseNetwork(input: string): (r: Option<Network>)
    ensures r.Some? ==> KeyedById(r.value.nodes)
  {
    var lines := Lines(input);
    if lines == [] then None
    else match (ParseInstructions(lines[0]), ParseNodes(lines[1..], map[]))
      case (Some(instructions), Some(nodes)) => Some(Network(instructions, nodes))
      case _ => None
  }

  /** `part_one`: the map is parsed (a malformed one panics), then walked. */
  method PartOne(input: string, fuel: nat) returns (r: Option<nat>)
    ensures ParseNetwork(input).None? ==> r.None?
    ensures ParseNetwork(input).Some? ==> var net := ParseNetwork(input).value;
      ("AAA" !in net.nodes ==> r.None?) &&
      ("AAA" in net.nodes ==> r == Arrival(net, net.nodes["AAA"], Named("ZZZ"), fuel))
  {
    var net := ParseNetwork(input);
    if net.None? {
      return None;
    }
    r := StepsToZZZ(net.value, fuel);
  }

  /** `part_two`: the map is parsed (a malformed one panics), and the answer is the
      least common multiple of the starts' step counts. */
  method PartTwo(input: string, fuel: nat) returns (r: Option<nat>)
    ensures ParseNetwork(input).None? ==> r.None?
    ensures ParseNetwork(input).Some? ==> var net := ParseNetwork(input).value;
      (r.None? <==> exists id :: id in StartIds(net) && GhostArrival(net, id, fuel).None?) &&
      (r.Some? ==> r.value >= 1 && CommonMultiple(net, StartIds(net), fuel, r.value) &&
                   forall m: nat :: CommonMultiple(net, StartIds(net), fuel, m) ==> Multiple(m, r.value))
  {
    var net := ParseNetwork(input);
    if net.None? {
      return None;
    }
    r := GhostSteps(net.value, fuel);
  }
}
