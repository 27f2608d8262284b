/** Day 25: a wiring diagram of components; cutting three wires splits it in two
    groups, and the answer multiplies their sizes. Modelled here: the links, the
    breadth-first group search, the split into groups and the test that only one
    pair of nodes is left. */
module Day25Snowverload {
  import opened Prelude

  /** One wire, named by both ends glued together. */
  datatype Link = Link(id: string, from: string, to: string)

  // ---------------------------------------------------------------- parsing

  /** One link from `from` to each target. */
  function LinksTo(from: string, targets: seq<string>): (r: seq<Link>)
    ensures |r| == |targets|
    ensures forall k :: 0 <= k < |targets| ==> r[k] == Link(from + targets[k], from, targets[k])
  {
    seq(|targets|, k requires 0 <= k < |targets| => Link(from + targets[k], from, targets[k]))
  }

  /** `create_links`: "a: b c" gives a link from a to each of b and c. None where the
      line has no ": " (the `unwrap` panics); text after a second ": " is dropped. */
  function CreateLinks(line: string): (r: Option<seq<Link>>)
    ensures r.Some? <==> |Split(line, ": ")| >= 2
  {
    var parts := Split(line, ": ");
    if |parts| < 2 then None else Some(LinksTo(parts[0], SplitChar(parts[1], ' ')))
  }

  /** A node name, as the diagram writes it. */
  predicate IsName(s: string) {
    s != [] && ':' !in s && ' ' !in s
  }

  /** A line written as "from: t1 t2 ..." gives exactly one link per target. */
  lemma {:induction false} CreateLinksText(from: string, targets: seq<string>)
    requires IsName(from) && |targets| >= 1 && forall k :: 0 <= k < |targets| ==> IsName(targets[k])
    ensures CreateLinks(from + ": " + Join(targets, " ")) == Some(LinksTo(from, targets))
  {
    var rest := Join(targets, " ");
    JoinNoColon(targets);
    SplitAt(from, ": ", rest);
    SplitAbsent(rest, ": ");
    SplitCharJoin(targets, ' ');
  }

  lemma {:induction false} JoinNoColon(targets: seq<string>)
    requires forall k :: 0 <= k < |targets| ==> IsName(targets[k])
    ensures ':' !in Join(targets, " ")
  {
    if |targets| > 1 {
      assert Join(targets, " ") == targets[0] + " " + Join(targets[1..], " ");
      JoinNoColon(targets[1..]);
    }
  }

  /** `input.lines().flat_map(create_links)`. */
  function ParseLinks(lines: seq<string>): (r: Option<seq<Link>>)
    ensures r.Some? <==> forall i :: 0 <= i < |lines| ==> CreateLinks(lines[i]).Some?
    ensures r.Some? ==> forall i :: 0 <= i < |lines| ==> multiset(CreateLinks(lines[i]).value) <= multiset(r.value)
  {
    if lines == [] then Some([])
    else match (CreateLinks(lines[0]), ParseLinks(lines[1..]))
      case (Some(first), Some(rest)) => Some(first + rest)
      case _ => None
  }

  // ---------------------------------------------------------------- the graph

  /** The link joins `a` and `b`, in either direction. */
  predicate Joins(l: Link, a: string, b: string) {
    (l.from == a && l.to == b) || (l.to == a && l.from == b)
  }

  ghost predicate Adjacent(links: seq<Link>, a: string, b: string) {
    exists l :: l in links && Joins(l, a, b)
  }

  /** Every name a link mentions. */
  function Nodes(links: seq<Link>): set<string> {
    (set l | l in links :: l.from) + (set l | l in links :: l.to)
  }

  lemma {:induction false} AdjacentNodes(links: seq<Link>, a: string, b: string)
    requires Adjacent(links, a, b)
    ensures a in Nodes(links) && b in Nodes(links)
  {
    var l :| l in links && Joins(l, a, b);
    assert l.from in Nodes(links) && l.to in Nodes(links);
  }

  ghost predicate Linked(links: seq<Link>, p: seq<string>, i: nat)
    requires i + 1 < |p|
  {
    Adjacent(links, p[i], p[i + 1])
  }

  /** A walk along links from `p[0]` to its last name. */
  ghost predicate Walk(links: seq<Link>, p: seq<string>) {
    |p| >= 1 && forall i: nat :: i + 1 < |p| ==> Linked(links, p, i)
  }

  ghost predicate Connected(links: seq<Link>, a: string, b: string) {
    exists p :: Walk(links, p) && p[0] == a && p[|p| - 1] == b
  }

  lemma {:induction false} ConnectedSelf(links: seq<Link>, a: string)
    ensures Connected(links, a, a)
  {
    assert Walk(links, [a]);
  }

  lemma {:induction false} ConnectedStep(links: seq<Link>, a: string, b: string, c: string)
    requires Connected(links, a, b) && Adjacent(links, b, c)
    ensures Connected(links, a, c)
  {
    var p :| Walk(links, p) && p[0] == a && p[|p| - 1] == b;
    var q := p + [c];
    forall i: nat | i + 1 < |q| ensures Linked(links, q, i) {
      if i + 1 < |p| {
        assert Linked(links, p, i);
      }
    }
    assert Walk(links, q);
  }

  lemma {:induction false} ConnectedSymmetric(links: seq<Link>, a: string, b: string)
    requires Connected(links, a, b)
    ensures Connected(links, b, a)
  {
    var p :| Walk(links, p) && p[0] == a && p[|p| - 1] == b;
    var q := seq(|p|, k requires 0 <= k < |p| => p[|p| - 1 - k]);
    forall i: nat | i + 1 < |q| ensures Linked(links, q, i) {
      var j: nat := |p| - 2 - i;
      assert Linked(links, p, j);
      var l :| l in links && Joins(l, p[j], p[j + 1]);
      assert Joins(l, q[i], q[i + 1]);
    }
    assert Walk(links, q);
  }

  lemma {:induction false} ConnectedTransitive(links: seq<Link>, a: string, b: string, c: string)
    requires Connected(links, a, b) && Connected(links, b, c)
    ensures Connected(links, a, c)
  {
    var q :| Walk(links, q) && q[0] == b && q[|q| - 1] == c;
    ConnectedAlong(links, a, q, |q| - 1);
  }

  lemma {:induction false} ConnectedAlong(links: seq<Link>, a: string, q: seq<string>, k: nat)
    requires Walk(links, q) && k < |q| && Connected(links, a, q[0])
    ensures Connected(links, a, q[k])
  {
    if k > 0 {
      ConnectedAlong(links, a, q, k - 1);
      assert Linked(links, q, k - 1);
      ConnectedStep(links, a, q[k - 1], q[k]);
    }
  }

  /** A list of names that holds every neighbour of each of its names holds every
      name connected to one of them. */
  lemma {:induction false} ClosedHoldsConnected(links: seq<Link>, s: seq<string>, p: seq<string>, k: nat)
    requires forall v, n :: v in s && Adjacent(links, v, n) ==> n in s
    requires Walk(links, p) && p[0] in s && k < |p|
    ensures p[k] in s
  {
    if k > 0 {
      ClosedHoldsConnected(links, s, p, k - 1);
      assert Linked(links, p, k - 1);
    }
  }

  // ---------------------------------------------------------------- get_next

  /** The `filter_map` closure of `get_next`: the far end of a link touching
      `current`, if not yet visited. */
  function FarEnd(l: Link, current: string, visited: seq<string>): seq<string> {
    if l.from == current && l.to !in visited then [l.to]
    else if l.to == current && l.from !in visited then [l.from]
    else []
  }

  /** `get_next`. */
  function GetNext(current: string, links: seq<Link>, visited: seq<string>): seq<string> {
    if links == [] then [] else FarEnd(links[0], current, visited) + GetNext(current, links[1..], visited)
  }

  /** `get_next` gives exactly the unvisited neighbours, links read both ways. */
  lemma {:induction false} GetNextSpec(current: string, links: seq<Link>, visited: seq<string>, n: string)
    ensures n in GetNext(current, links, visited) <==> n !in visited && Adjacent(links, current, n)
    decreases |links|
  {
    if links != [] {
      GetNextSpec(current, links[1..], visited, n);
      var l := links[0];
      if n !in visited && Joins(l, current, n) {
        assert n in FarEnd(l, current, visited);
      }
      if n !in visited && Adjacent(links, current, n) && !Joins(l, current, n) {
        var l' :| l' in links && Joins(l', current, n);
        assert l' in links[1..];
      }
    }
  }

  // ---------------------------------------------------------------- get_group

  /** One round of `get_group`: the names found from each current name in turn, each
      pushed onto the visited list before the next name is looked at. Gives the new
      current list and the new visited list. */
  function Round(links: seq<Link>, current: seq<string>, visited: seq<string>): (seq<string>, seq<string>)
    decreases |current|
  {
    if current == [] then ([], visited)
    else
      var found := GetNext(current[0], links, visited);
      var rest := Round(links, current[1..], visited + found);
      (found + rest.0, rest.1)
  }

  /** A round appends what it finds to the visited list; what it finds was not visited
      and neighbours some current name. */
  lemma {:induction false} RoundSpec(links: seq<Link>, current: seq<string>, visited: seq<string>)
    ensures Round(links, current, visited).1 == visited + Round(links, current, visited).0
    ensures forall n :: n in Round(links, current, visited).0 ==>
      n !in visited && exists c :: c in current && Adjacent(links, c, n)
    decreases |current|
  {
    if current != [] {
      var found := GetNext(current[0], links, visited);
      RoundSpec(links, current[1..], visited + found);
      forall n | n in found ensures n !in visited && Adjacent(links, current[0], n) {
        GetNextSpec(current[0], links, visited, n);
      }
      forall n | n in Round(links, current[1..], visited + found).0
        ensures n !in visited && exists c :: c in current && Adjacent(links, c, n)
      {
        var c :| c in current[1..] && Adjacent(links, c, n);
        assert c in current;
      }
    }
  }

  /** After a round every neighbour of a current name is visited. */
  lemma {:induction false} RoundExpands(links: seq<Link>, current: seq<string>, visited: seq<string>, c: string, n: string)
    requires c in current && Adjacent(links, c, n)
    ensures n in Round(links, current, visited).1
    decreases |current|
  {
    var found := GetNext(current[0], links, visited);
    RoundSpec(links, current[1..], visited + found);
    if c == current[0] {
      GetNextSpec(current[0], links, visited, n);
    } else {
      RoundExpands(links, current[1..], visited + found, c, n);
    }
  }

  /** The names no visited entry holds: the measure of the search. */
  function Unvisited(links: seq<Link>, visited: seq<string>): nat {
    |Nodes(links) - (set v | v in visited)|
  }

  lemma {:induction false} SubsetCard<T>(a: set<T>, b: set<T>)
    requires a <= b
    ensures |a| <= |b|
    decreases |a|
  {
    if a != {} {
      var x :| x in a;
      SubsetCard(a - {x}, b - {x});
    }
  }

  /** A round never adds to the measure, and lowers it when it finds something. */
  lemma {:induction false} RoundShrinks(links: seq<Link>, current: seq<string>, visited: seq<string>)
    ensures Unvisited(links, Round(links, current, visited).1) <= Unvisited(links, visited)
    ensures Round(links, current, visited).0 != [] ==>
      Unvisited(links, Round(links, current, visited).1) < Unvisited(links, visited)
  {
    var r := Round(links, current, visited);
    RoundSpec(links, current, visited);
    var before := Nodes(links) - (set v | v in visited);
    var after := Nodes(links) - (set v | v in r.1);
    assert after <= before;
    SubsetCard(after, before);
    if r.0 != [] {
      var x := r.0[0];
      assert x in r.0;
      var c :| c in current && Adjacent(links, c, x);
      AdjacentNodes(links, c, x);
      assert x in before && x !in after;
      SubsetCard(after, before - {x});
    }
  }

  /** The rounds of `get_group` until a round finds nothing. */
  function GroupFrom(links: seq<Link>, current: seq<string>, visited: seq<string>): seq<string>
    decreases Unvisited(links, visited), if current == [] then 0 else 1
  {
    if current == [] then visited
    else
      RoundShrinks(links, current, visited);
      var r := Round(links, current, visited);
      GroupFrom(links, r.0, r.1)
  }

  function Group(start: string, links: seq<Link>): seq<string> {
    GroupFrom(links, [start], [start])
  }

  /** One name of a round: what it finds joins the list found so far and the visited
      list before the rest of the round. */
  lemma {:induction false} RoundStep(links: seq<Link>, current: seq<string>, i: nat, visited: seq<string>, next: seq<string>)
    requires i < |current|
    ensures var found := GetNext(current[i], links, visited);
      var rest := Round(links, current[i + 1..], visited + found);
      (next + Round(links, current[i..], visited).0, Round(links, current[i..], visited).1)
        == ((next + found) + rest.0, rest.1)
  {
    assert current[i..][1..] == current[i + 1..];
    var found := GetNext(current[i], links, visited);
    var rest := Round(links, current[i + 1..], visited + found);
    assert next + (found + rest.0) == (next + found) + rest.0;
  }

  /** `get_group`: breadth first from `start`; a name is pushed onto the visited
      list as soon as it is found. */
  method GetGroup(start: string, links: seq<Link>) returns (visited: seq<string>)
    ensures visited == Group(start, links)
  {
    var current := [start];
    visited := current;
    while current != []
      invariant GroupFrom(links, current, visited) == Group(start, links)
      decreases Unvisited(links, visited), if current == [] then 0 else 1
    {
      ghost var seen := visited;
      var next: seq<string> := [];
      assert current[0..] == current;
      assert [] + Round(links, current, seen).0 == Round(links, current, seen).0;
      for i := 0 to |current|
        invariant Round(links, current, seen)
          == (next + Round(links, current[i..], visited).0, Round(links, current[i..], visited).1)
      {
        var found := GetNext(current[i], links, visited);
        RoundStep(links, current, i, visited, next);
        visited := PushAll(visited, found);
        next := next + found;
      }
      assert current[|current|..] == [];
      assert next + [] == next;
      RoundShrinks(links, current, seen);
      current := next;
    }
  }

  // ---------------------------------------------------------------- what get_group finds

  /** What holds between the rounds: the visited list is the list so far, the current
      names are visited and the visited names are connected to the start; a visited
      name that is not current has all its neighbours visited. */
  ghost predicate Searching(links: seq<Link>, start: string, current: seq<string>, visited: seq<string>) {
    |visited| >= 1 && visited[0] == start
    && (forall c :: c in current ==> c in visited)
    && (forall v :: v in visited ==> Connected(links, start, v))
    && (forall v, n :: v in visited && v !in current && Adjacent(links, v, n) ==> n in visited)
  }

  lemma {:induction false} RoundKeepsSearching(links: seq<Link>, start: string, current: seq<string>, visited: seq<string>)
    requires Searching(links, start, current, visited)
    ensures Searching(links, start, Round(links, current, visited).0, Round(links, current, visited).1)
  {
    var r := Round(links, current, visited);
    RoundSpec(links, current, visited);
    forall v | v in r.1 ensures Connected(links, start, v) {
      if v !in visited {
        var c :| c in current && Adjacent(links, c, v);
        ConnectedStep(links, start, c, v);
      }
    }
    forall v, n | v in r.1 && v !in r.0 && Adjacent(links, v, n) ensures n in r.1 {
      if v in current {
        RoundExpands(links, current, visited, v, n);
      }
    }
  }

  lemma {:induction false} GroupFromSearches(links: seq<Link>, start: string, current: seq<string>, visited: seq<string>)
    requires Searching(links, start, current, visited)
    ensures Searching(links, start, [], GroupFrom(links, current, visited))
    decreases Unvisited(links, visited), if current == [] then 0 else 1
  {
    if current != [] {
      RoundShrinks(links, current, visited);
      RoundKeepsSearching(links, start, current, visited);
      var r := Round(links, current, visited);
      GroupFromSearches(links, start, r.0, r.1);
    }
  }

  /** `get_group` starts with `start` and lists exactly the names connected to it. */
  lemma {:induction false} GroupIsComponent(start: string, links: seq<Link>, n: string)
    ensures |Group(start, links)| >= 1 && Group(start, links)[0] == start
    ensures n in Group(start, links) <==> Connected(links, start, n)
  {
    ConnectedSelf(links, start);
    GroupFromSearches(links, start, [start], [start]);
    var g := Group(start, links);
    if Connected(links, start, n) {
      var p :| Walk(links, p) && p[0] == start && p[|p| - 1] == n;
      ClosedHoldsConnected(links, g, p, |p| - 1);
    }
  }

  /** A name connected to a node is a node. */
  lemma {:induction false} ConnectedNodes(links: seq<Link>, a: string, b: string)
    requires a in Nodes(links) && Connected(links, a, b)
    ensures b in Nodes(links)
  {
    var p :| Walk(links, p) && p[0] == a && p[|p| - 1] == b;
    if |p| > 1 {
      assert Linked(links, p, |p| - 2);
      AdjacentNodes(links, p[|p| - 2], b);
    }
  }

  // ---------------------------------------------------------------- components

  /** The nodes connected to `n`. */
  ghost function Component(links: seq<Link>, n: string): set<string> {
    set m | m in Nodes(links) && Connected(links, n, m)
  }

  ghost function Components(links: seq<Link>): set<set<string>> {
    set n | n in Nodes(links) :: Component(links, n)
  }

  /** Names in one component have the same component. */
  lemma {:induction false} SameComponent(links: seq<Link>, a: string, b: string)
    requires Connected(links, a, b)
    ensures Component(links, a) == Component(links, b)
  {
    ConnectedSymmetric(links, a, b);
    forall m ensures Connected(links, a, m) <==> Connected(links, b, m) {
      if Connected(links, a, m) {
        ConnectedTransitive(links, b, a, m);
      }
      if Connected(links, b, m) {
        ConnectedTransitive(links, a, b, m);
      }
    }
  }

  function Elements(g: seq<string>): set<string> {
    set n | n in g
  }

  /** A group found from a node holds exactly that node's component. */
  lemma {:induction false} GroupElements(start: string, links: seq<Link>)
    requires start in Nodes(links)
    ensures Elements(Group(start, links)) == Component(links, start)
  {
    forall n ensures n in Group(start, links) <==> n in Component(links, start) {
      GroupIsComponent(start, links, n);
      if Connected(links, start, n) {
        ConnectedNodes(links, start, n);
      }
    }
  }

  // ---------------------------------------------------------------- find_groups

  /** `groups.iter().flatten()`. */
  function Flatten(groups: seq<seq<string>>): seq<string> {
    if groups == [] then [] else Flatten(groups[..|groups| - 1]) + groups[|groups| - 1]
  }

  lemma {:induction false} FlattenSpec(groups: seq<seq<string>>, n: string)
    ensures n in Flatten(groups) <==> exists i :: 0 <= i < |groups| && n in groups[i]
  {
    if groups != [] {
      var init := groups[..|groups| - 1];
      FlattenSpec(init, n);
      if exists i :: 0 <= i < |groups| && n in groups[i] {
        var i :| 0 <= i < |groups| && n in groups[i];
        if i < |groups| - 1 {
          assert n in init[i];
        }
      }
    }
  }

  /** The `find_map` of `find_groups`: the first end of a link, in order, that no
      group holds. */
  function NextStart(links: seq<Link>, groups: seq<seq<string>>): (r: Option<string>)
    ensures r.Some? ==> r.value in Nodes(links) && r.value !in Flatten(groups)
    ensures r.None? <==> Nodes(links) <= Elements(Flatten(groups))
  {
    if links == [] then None
    else if links[0].from !in Flatten(groups) then
      assert links[0].from in Nodes(links);
      Some(links[0].from)
    else if links[0].to !in Flatten(groups) then
      assert links[0].to in Nodes(links);
      Some(links[0].to)
    else
      var r := NextStart(links[1..], groups);
      assert Nodes(links) == Nodes(links[1..]) + {links[0].from, links[0].to} by {
        assert forall l :: l in links <==> l == links[0] || l in links[1..];
      }
      r
  }

  /** The iterations of `find_groups`' loop from `start` with the groups found so far. */
  function GroupsFrom(links: seq<Link>, amount: nat, start: string, groups: seq<seq<string>>): Option<seq<seq<string>>>
    requires |groups| <= amount
    decreases amount - |groups|
  {
    if |groups| == amount then None
    else
      var groups' := groups + [Group(start, links)];
      match NextStart(links, groups')
      case None => if |groups'| != amount then None else Some(groups')
      case Some(x) => GroupsFrom(links, amount, x, groups')
  }

  /** `find_groups::<amount>`: None on no links (`links[0]` panics). */
  function Groups(links: seq<Link>, amount: nat): Option<seq<seq<string>>> {
    if links == [] then None else GroupsFrom(links, amount, links[0].from, [])
  }

  /** `find_groups`: one group at a time from the first uncovered name; give up once
      `amount` groups leave a name uncovered. */
  method FindGroups(links: seq<Link>, amount: nat) returns (r: Option<seq<seq<string>>>)
    ensures r == Groups(links, amount)
  {
    if links == [] {
      return None;
    }
    var start := links[0].from;
    var groups: seq<seq<string>> := [];
    while true
      invariant |groups| <= amount
      invariant GroupsFrom(links, amount, start, groups) == Groups(links, amount)
      decreases amount - |groups|
    {
      if |groups| == amount {
        return None;
      }
      var group := GetGroup(start, links);
      groups := groups + [group];
      var nextStart := NextStart(links, groups);
      match nextStart {
        case None => break;
        case Some(x) => start := x;
      }
    }
    if |groups| != amount {
      return None;
    }
    r := Some(groups);
  }

  // ---------------------------------------------------------------- what find_groups finds

  /** The name sets of the groups. */
  function GroupSets(groups: seq<seq<string>>): set<set<string>> {
    if groups == [] then {} else GroupSets(groups[..|groups| - 1]) + {Elements(groups[|groups| - 1])}
  }

  lemma {:induction false} GroupSetsPush(groups: seq<seq<string>>, g: seq<string>)
    ensures GroupSets(groups + [g]) == GroupSets(groups) + {Elements(g)}
  {
    assert (groups + [g])[..|groups|] == groups;
  }

  lemma {:induction false} GroupSetsSpec(groups: seq<seq<string>>, e: set<string>)
    ensures e in GroupSets(groups) <==> exists i :: 0 <= i < |groups| && e == Elements(groups[i])
  {
    if groups != [] {
      var init := groups[..|groups| - 1];
      GroupSetsSpec(init, e);
      if exists i :: 0 <= i < |groups| && e == Elements(groups[i]) {
        var i :| 0 <= i < |groups| && e == Elements(groups[i]);
        if i < |groups| - 1 {
          assert e == Elements(init[i]);
        }
      }
    }
  }

  /** The groups so far are different components. */
  ghost predicate Splitting(links: seq<Link>, groups: seq<seq<string>>) {
    GroupSets(groups) <= Components(links) && |GroupSets(groups)| == |groups|
  }

  /** Every group is the group of some node. */
  ghost predicate Found(links: seq<Link>, groups: seq<seq<string>>) {
    forall i :: 0 <= i < |groups| ==> GroupOfNode(links, groups[i])
  }

  ghost predicate GroupOfNode(links: seq<Link>, g: seq<string>) {
    exists x :: x in Nodes(links) && g == Group(x, links)
  }

  /** The component of a name no group holds is none of the groups. */
  lemma {:induction false} UncoveredIsNew(links: seq<Link>, groups: seq<seq<string>>, x: string)
    requires Splitting(links, groups) && x in Nodes(links) && x !in Flatten(groups)
    ensures Component(links, x) !in GroupSets(groups)
  {
    ConnectedSelf(links, x);
    GroupSetsSpec(groups, Component(links, x));
    if Component(links, x) in GroupSets(groups) {
      var i :| 0 <= i < |groups| && Component(links, x) == Elements(groups[i]);
      assert x in Component(links, x);
      assert x in Elements(groups[i]);
      FlattenSpec(groups, x);
    }
  }

  /** When every node is held by a group, the groups are all the components. */
  lemma {:induction false} CoveredIsAll(links: seq<Link>, groups: seq<seq<string>>)
    requires Splitting(links, groups) && Nodes(links) <= Elements(Flatten(groups))
    ensures GroupSets(groups) == Components(links)
  {
    forall e | e in Components(links) ensures e in GroupSets(groups) {
      var n :| n in Nodes(links) && e == Component(links, n);
      FlattenSpec(groups, n);
      var i :| 0 <= i < |groups| && n in groups[i];
      GroupSetsSpec(groups, Elements(groups[i]));
      assert Elements(groups[i]) in Components(links);
      var m :| m in Nodes(links) && Elements(groups[i]) == Component(links, m);
      assert n in Component(links, m);
      SameComponent(links, m, n);
    }
  }

  lemma {:induction false} ProperSubsetCard<T>(a: set<T>, b: set<T>, x: T)
    requires a <= b && x in b && x !in a
    ensures |a| < |b|
  {
    SubsetCard(a, b - {x});
  }

  lemma {:induction false} PushSplitting(links: seq<Link>, groups: seq<seq<string>>, start: string)
    requires Splitting(links, groups) && start in Nodes(links) && start !in Flatten(groups)
    ensures Splitting(links, groups + [Group(start, links)])
  {
    UncoveredIsNew(links, groups, start);
    GroupElements(start, links);
    GroupSetsPush(groups, Group(start, links));
  }

  lemma {:induction false} GroupsFromSpec(links: seq<Link>, amount: nat, start: string, groups: seq<seq<string>>)
    requires |groups| <= amount && Splitting(links, groups) && Found(links, groups)
    requires start in Nodes(links) && start !in Flatten(groups)
    ensures GroupsFrom(links, amount, start, groups).Some? <==> |Components(links)| == amount
    ensures GroupsFrom(links, amount, start, groups).Some? ==>
      (var gs := GroupsFrom(links, amount, start, groups).value;
       |gs| == amount && Splitting(links, gs) && Found(links, gs) && GroupSets(gs) == Components(links))
    decreases amount - |groups|
  {
    UncoveredIsNew(links, groups, start);
    assert Component(links, start) in Components(links);
    ProperSubsetCard(GroupSets(groups), Components(links), Component(links, start));
    if |groups| < amount {
      var groups' := groups + [Group(start, links)];
      PushSplitting(links, groups, start);
      assert GroupOfNode(links, groups'[|groups|]);
      assert Found(links, groups');
      match NextStart(links, groups')
      case None =>
        CoveredIsAll(links, groups');
      case Some(x) =>
        GroupsFromSpec(links, amount, x, groups');
    }
  }

  /** `find_groups::<amount>` gives Some exactly when the links form `amount`
      components, and then its groups hold exactly those components. */
  lemma {:induction false} GroupsAreComponents(links: seq<Link>, amount: nat)
    ensures Groups(links, amount).Some? <==> links != [] && |Components(links)| == amount
    ensures Groups(links, amount).Some? ==>
      |Groups(links, amount).value| == amount && GroupSets(Groups(links, amount).value) == Components(links)
    ensures Groups(links, amount).Some? ==>
      Splitting(links, Groups(links, amount).value) && Found(links, Groups(links, amount).value)
  {
    if links != [] {
      assert links[0].from in Nodes(links);
      GroupsFromSpec(links, amount, links[0].from, []);
    }
  }

  // ---------------------------------------------------------------- are_all_same_nodes

  /** The two links join the same pair of names, in either direction. */
  predicate SamePair(a: Link, b: Link) {
    (a.from == b.from && a.to == b.to) || (a.from == b.to && a.to == b.from)
  }

  /** The `for` loop of `are_all_same_nodes`: stop at the first link of another pair. */
  function AllSameAs(compare: Link, rest: seq<Link>): bool {
    if rest == [] then true
    else if !SamePair(rest[0], compare) then false
    else AllSameAs(compare, rest[1..])
  }

  /** `are_all_same_nodes`: None on no links (`links[0]` panics). */
  function AreAllSameNodes(links: seq<Link>): Option<bool> {
    if links == [] then None else Some(AllSameAs(links[0], links[1..]))
  }

  lemma {:induction false} AllSameAsSpec(compare: Link, rest: seq<Link>)
    ensures AllSameAs(compare, rest) <==> forall k :: 0 <= k < |rest| ==> SamePair(rest[k], compare)
  {
    if rest != [] {
      AllSameAsSpec(compare, rest[1..]);
      assert forall k :: 1 <= k < |rest| ==> rest[k] == rest[1..][k - 1];
    }
  }

  /** True exactly when every link joins the same two names as the first. */
  lemma {:induction false} AreAllSameNodesSpec(links: seq<Link>)
    requires links != []
    ensures AreAllSameNodes(links) == Some(forall k :: 0 <= k < |links| ==> SamePair(links[k], links[0]))
  {
    AllSameAsSpec(links[0], links[1..]);
    assert forall k :: 1 <= k < |links| ==> links[k] == links[1..][k - 1];
  }

  // ---------------------------------------------------------------- group sizes

  predicate Distinct(s: seq<string>) {
    forall i, j :: 0 <= i < j < |s| ==> s[i] != s[j]
  }

  /** No two links join the same pair: each wire is listed once. */
  predicate Simple(links: seq<Link>) {
    forall i, j :: 0 <= i < j < |links| ==> !SamePair(links[i], links[j])
  }

  lemma {:induction false} GetNextDistinct(current: string, links: seq<Link>, visited: seq<string>)
    requires Simple(links)
    ensures Distinct(GetNext(current, links, visited))
    decreases |links|
  {
    if links != [] {
      GetNextDistinct(current, links[1..], visited);
      var first := FarEnd(links[0], current, visited);
      var rest := GetNext(current, links[1..], visited);
      if first != [] {
        var n := first[0];
        assert Joins(links[0], current, n);
        forall l | l in links[1..] ensures !Joins(l, current, n) {
          var j :| 0 <= j < |links[1..]| && links[1..][j] == l;
          assert !SamePair(links[0], links[j + 1]);
        }
        GetNextSpec(current, links[1..], visited, n);
        assert n !in rest;
      }
    }
  }

  lemma {:induction false} DistinctAppend(a: seq<string>, b: seq<string>)
    requires Distinct(a) && Distinct(b) && forall x :: x in b ==> x !in a
    ensures Distinct(a + b)
  {
    forall i, j | 0 <= i < j < |a + b| ensures (a + b)[i] != (a + b)[j] {
      if j >= |a| {
        assert (a + b)[j] == b[j - |a|];
        if i < |a| {
          assert (a + b)[i] in a;
        }
      }
    }
  }

  /** Without parallel wires a round finds every name once. */
  lemma {:induction false} RoundDistinct(links: seq<Link>, current: seq<string>, visited: seq<string>)
    requires Simple(links) && Distinct(visited)
    ensures Distinct(Round(links, current, visited).1)
    decreases |current|
  {
    if current != [] {
      var found := GetNext(current[0], links, visited);
      GetNextDistinct(current[0], links, visited);
      forall n | n in found ensures n !in visited {
        GetNextSpec(current[0], links, visited, n);
      }
      DistinctAppend(visited, found);
      RoundDistinct(links, current[1..], visited + found);
    }
  }

  lemma {:induction false} GroupFromDistinct(links: seq<Link>, current: seq<string>, visited: seq<string>)
    requires Simple(links) && Distinct(visited)
    ensures Distinct(GroupFrom(links, current, visited))
    decreases Unvisited(links, visited), if current == [] then 0 else 1
  {
    if current != [] {
      RoundShrinks(links, current, visited);
      RoundDistinct(links, current, visited);
      var r := Round(links, current, visited);
      GroupFromDistinct(links, r.0, r.1);
    }
  }

  lemma {:induction false} DistinctSize(s: seq<string>)
    requires Distinct(s)
    ensures |Elements(s)| == |s|
  {
    if s != [] {
      var init := s[..|s| - 1];
      DistinctSize(init);
      assert Elements(s) == Elements(init) + {s[|s| - 1]};
    }
  }

  /** Without parallel wires a group's length is the size of its component. */
  lemma {:induction false} GroupSize(start: string, links: seq<Link>)
    requires Simple(links) && start in Nodes(links)
    ensures |Group(start, links)| == |Component(links, start)|
  {
    GroupFromDistinct(links, [start], [start]);
    DistinctSize(Group(start, links));
    GroupElements(start, links);
  }

  // ---------------------------------------------------------------- part one

  lemma {:induction false} GroupSizeEach(links: seq<Link>, groups: seq<seq<string>>, i: nat)
    requires Simple(links) && Found(links, groups) && i < |groups|
    ensures |groups[i]| == |Elements(groups[i])|
  {
    assert GroupOfNode(links, groups[i]);
    var x :| x in Nodes(links) && groups[i] == Group(x, links);
    GroupSize(x, links);
    GroupElements(x, links);
  }

  /** The links whose id is not one of the cut wires'. */
  function Remaining(links: seq<Link>, cut: seq<Link>): (r: seq<Link>)
    ensures forall l :: l in r <==> l in links && forall d :: d in cut ==> d.id != l.id
  {
    if links == [] then []
    else (if forall d :: d in cut ==> d.id != links[0].id then [links[0]] else []) + Remaining(links[1..], cut)
  }

  /** The fold over the group lengths. */
  function Sizes(groups: seq<seq<string>>): nat {
    if groups == [] then 1 else Sizes(groups[..|groups| - 1]) * |groups[|groups| - 1]|
  }

  /** `part_one` from the wires the contraction left: split the rest in two groups
      and multiply their lengths. */
  function PartOne(input: string, cut: seq<Link>): (r: Option<nat>)
    ensures r.Some? <==>
      (ParseLinks(Lines(input)).Some?
       && Remaining(ParseLinks(Lines(input)).value, cut) != []
       && |Components(Remaining(ParseLinks(Lines(input)).value, cut))| == 2)
  {
    match ParseLinks(Lines(input))
    case None => None
    case Some(links) =>
      GroupsAreComponents(Remaining(links, cut), 2);
      match Groups(Remaining(links, cut), 2)
      case None => None
      case Some(groups) => Some(Sizes(groups))
  }

  /** A pair of groups: its sets and the product of its lengths. */
  lemma {:induction false} PairOfGroups(gs: seq<seq<string>>)
    requires |gs| == 2
    ensures GroupSets(gs) == {Elements(gs[0]), Elements(gs[1])}
    ensures Sizes(gs) == |gs[0]| * |gs[1]|
  {
    assert gs[..1] == [gs[0]];
    assert [gs[0]][..0] == [];
    assert gs == [gs[0]] + [gs[1]] && [gs[0]] == [] + [gs[0]];
    GroupSetsPush([], gs[0]);
    GroupSetsPush([gs[0]], gs[1]);
    assert Sizes([gs[0]]) == |gs[0]| by {
      assert Sizes([gs[0]][..0]) == 1;
    }
  }

  /** Two groups of a simple graph: their lengths multiply to the product of the
      two component sizes. */
  lemma {:induction false} TwoGroups(links: seq<Link>)
    requires Simple(links) && Groups(links, 2).Some?
    ensures exists a, b :: a != b && Components(links) == {a, b} && Sizes(Groups(links, 2).value) == |a| * |b|
  {
    GroupsAreComponents(links, 2);
    var gs := Groups(links, 2).value;
    var a := Elements(gs[0]);
    var b := Elements(gs[1]);
    PairOfGroups(gs);
    GroupSizeEach(links, gs, 0);
    GroupSizeEach(links, gs, 1);
    assert |{a, b}| == 2;
    assert {a, b} == {a} + {b};
    assert a != b;
  }

  /** When cutting leaves exactly two components, part one is the product of their
      sizes (each wire listed once). */
  lemma {:induction false} PartOneMultipliesComponents(input: string, cut: seq<Link>)
    requires ParseLinks(Lines(input)).Some?
    requires Simple(Remaining(ParseLinks(Lines(input)).value, cut))
    ensures PartOne(input, cut).Some? <==>
      Remaining(ParseLinks(Lines(input)).value, cut) != [] && |Components(Remaining(ParseLinks(Lines(input)).value, cut))| == 2
    ensures PartOne(input, cut).Some? ==>
      exists a, b :: a != b && Components(Remaining(ParseLinks(Lines(input)).value, cut)) == {a, b}
                     && PartOne(input, cut).value == |a| * |b|
  {
    var links := Remaining(ParseLinks(Lines(input)).value, cut);
    GroupsAreComponents(links, 2);
    if Groups(links, 2).Some? {
      TwoGroups(links);
    }
  }
}
