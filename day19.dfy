/** Day 19: parts flow through named workflows of comparison rules until they are
    Accepted or Rejected; part two pushes whole 4-D boxes of ratings through the same
    rules, splitting them at each comparison. */
module Day19Aplenty {
  import opened Prelude

  datatype Part = Part(x: nat, m: nat, a: nat, s: nat)

  predicate IsCategory(c: string) {
    c == "x" || c == "m" || c == "a" || c == "s"
  }

  /** `Part::get_category_value`; any other name makes the program panic. */
  function CategoryValue(part: Part, c: string): (r: Option<nat>)
    ensures r.Some? <==> IsCategory(c)
    ensures r.Some? ==> r.value in {part.x, part.m, part.a, part.s}
  {
    if c == "x" then Some(part.x)
    else if c == "m" then Some(part.m)
    else if c == "a" then Some(part.a)
    else if c == "s" then Some(part.s)
    else None
  }

  datatype Ordering = Less | Greater | Equal

  /** A transition as data: the closure of the source is `Holds` on these fields; a
      fallback rule is tagged `("x", Equal, 0)`. */
  datatype Rule = Rule(category: string, ordering: Ordering, number: nat, target: string)

  datatype Workflow = Workflow(name: string, rules: seq<Rule>)

  /** The condition of a rule; a comparison on an unknown category panics. */
  function Holds(rule: Rule, part: Part): (r: Option<bool>)
    ensures rule.ordering == Equal ==> r == Some(true)
    ensures r.None? <==> rule.ordering != Equal && !IsCategory(rule.category)
  {
    match rule.ordering
    case Equal => Some(true)
    case Less => (match CategoryValue(part, rule.category) case Some(v) => Some(v < rule.number) case None => None)
    case Greater => (match CategoryValue(part, rule.category) case Some(v) => Some(v > rule.number) case None => None)
  }

  // ---------------------------------------------------------------- part one

  /** The target of the first rule, in order, whose condition holds; None when one
      panics or none holds. */
  function Route(rules: seq<Rule>, part: Part): Option<string> {
    if rules == [] then None
    else match Holds(rules[0], part)
      case None => None
      case Some(true) => Some(rules[0].target)
      case Some(false) => Route(rules[1..], part)
  }

  /** `Route` picks the first rule that holds, after rules that all fail. */
  lemma {:induction false} RouteFirst(rules: seq<Rule>, part: Part, t: string)
    ensures Route(rules, part) == Some(t) <==> FirstHolding(rules, part, t)
  {
    if rules != [] {
      RouteFirst(rules[1..], part, t);
      if Holds(rules[0], part) == Some(false) {
        FirstHoldingSkip(rules, part, t);
      } else if Holds(rules[0], part) == Some(true) && rules[0].target == t {
        assert Holds(rules[0], part) == Some(true) && rules[0].target == t;
      }
    }
  }

  /** Some rule holds with target `t` and every rule before it fails. */
  ghost predicate FirstHolding(rules: seq<Rule>, part: Part, t: string) {
    exists i :: 0 <= i < |rules| && Holds(rules[i], part) == Some(true) && rules[i].target == t &&
      forall j :: 0 <= j < i ==> Holds(rules[j], part) == Some(false)
  }

  /** After a first rule that fails, the first rule holding is the first of the rest. */
  lemma {:induction false} FirstHoldingSkip(rules: seq<Rule>, part: Part, t: string)
    requires rules != [] && Holds(rules[0], part) == Some(false)
    ensures FirstHolding(rules, part, t) <==> FirstHolding(rules[1..], part, t)
  {
    var tail := rules[1..];
    if FirstHolding(tail, part, t) {
      var i :| 0 <= i < |tail| && Holds(tail[i], part) == Some(true) && tail[i].target == t &&
        forall j :: 0 <= j < i ==> Holds(tail[j], part) == Some(false);
      forall j | 0 <= j < i + 1 ensures Holds(rules[j], part) == Some(false) {
        if j > 0 {
          assert rules[j] == tail[j - 1];
        }
      }
      assert rules[i + 1] == tail[i];
    }
    if FirstHolding(rules, part, t) {
      var i :| 0 <= i < |rules| && Holds(rules[i], part) == Some(true) && rules[i].target == t &&
        forall j :: 0 <= j < i ==> Holds(rules[j], part) == Some(false);
      assert tail[i - 1] == rules[i];
      forall j | 0 <= j < i - 1 ensures Holds(tail[j], part) == Some(false) {
        assert tail[j] == rules[j + 1];
      }
    }
  }

  /** `Workflow::send_part`. */
  method SendPart(w: Workflow, part: Part) returns (r: Option<string>)
    ensures r == Route(w.rules, part)
  {
    for i := 0 to |w.rules|
      invariant Route(w.rules[i..], part) == Route(w.rules, part)
    {
      assert w.rules[i..][1..] == w.rules[i + 1..];
      var holds := Holds(w.rules[i], part);
      if holds.None? {
        return None;
      }
      if holds.value {
        return Some(w.rules[i].target);
      }
    }
    assert w.rules[|w.rules|..] == [];
    return None;
  }

  datatype Verdict = Accept | Reject | Panic | Unfinished

  /** `calc` from workflow `name`: follow the routes until "A" or "R", within `fuel`
      lookups; a missing workflow or a failed route panics. */
  function Run(ws: map<string, Workflow>, part: Part, name: string, fuel: nat): Verdict
    decreases fuel
  {
    if name == "A" then Accept
    else if name == "R" then Reject
    else if fuel == 0 then Unfinished
    else if name !in ws then Panic
    else match Route(ws[name].rules, part)
      case None => Panic
      case Some(t) => Run(ws, part, t, fuel - 1)
  }

  /** A finished run gives the same verdict with more fuel. */
  lemma {:induction false} RunFuel(ws: map<string, Workflow>, part: Part, name: string, fuel: nat, more: nat)
    requires Run(ws, part, name, fuel) in {Accept, Reject}
    ensures Run(ws, part, name, fuel + more) == Run(ws, part, name, fuel)
    decreases fuel
  {
    if name != "A" && name != "R" {
      var t := Route(ws[name].rules, part).value;
      RunFuel(ws, part, t, fuel - 1, more);
    }
  }

  /** `calc`: the loop from "in". */
  method Calc(part: Part, ws: map<string, Workflow>, fuel: nat) returns (r: Verdict)
    ensures r == Run(ws, part, "in", fuel)
  {
    var name := "in";
    var steps := 0;
    while name != "A" && name != "R"
      invariant steps <= fuel
      invariant Run(ws, part, name, fuel - steps) == Run(ws, part, "in", fuel)
      decreases fuel - steps
    {
      if steps == fuel {
        return Unfinished;
      }
      if name !in ws {
        return Panic;
      }
      var next := SendPart(ws[name], part);
      if next.None? {
        return Panic;
      }
      name := next.value;
      steps := steps + 1;
    }
    return if name == "A" then Accept else Reject;
  }

  // ---------------------------------------------------------------- boxes of ratings

  /** The inclusive range `start ..= end` (a `Range` read as closed). */
  datatype Interval = Interval(start: nat, end: nat)

  predicate In(v: nat, iv: Interval) {
    iv.start <= v <= iv.end
  }

  function Width(iv: Interval): (w: nat)
    ensures w > 0 <==> iv.start <= iv.end
  {
    if iv.end >= iv.start then iv.end - iv.start + 1 else 0
  }

  datatype Box = Box(x: Interval, m: Interval, a: Interval, s: Interval)

  predicate Contains(b: Box, p: Part) {
    In(p.x, b.x) && In(p.m, b.m) && In(p.a, b.a) && In(p.s, b.s)
  }

  function Get(b: Box, c: string): Interval
    requires IsCategory(c)
  {
    if c == "x" then b.x else if c == "m" then b.m else if c == "a" then b.a else b.s
  }

  function With(b: Box, c: string, iv: Interval): (r: Box)
    requires IsCategory(c)
    ensures Get(r, c) == iv
  {
    if c == "x" then b.(x := iv) else if c == "m" then b.(m := iv) else if c == "a" then b.(a := iv) else b.(s := iv)
  }

  /** Replacing one axis only changes membership along that axis. */
  lemma {:induction false} WithContains(b: Box, c: string, iv: Interval, p: Part)
    requires IsCategory(c)
    ensures Contains(b, p) ==> (Contains(With(b, c, iv), p) <==> In(CategoryValue(p, c).value, iv))
    ensures Contains(With(b, c, iv), p) ==> In(CategoryValue(p, c).value, iv)
    ensures Contains(With(b, c, iv), p) && In(CategoryValue(p, c).value, Get(b, c)) ==> Contains(b, p)
  {
  }

  function Min(a: nat, b: nat): nat { if a <= b then a else b }
  function Max(a: nat, b: nat): nat { if a >= b then a else b }

  type Output = (string, Box)

  /** One rule applied to the box still unrouted: the boxes it emits and the rest.
      A comparison emits the part of the box where it holds and keeps the part where
      it fails, each clamped to the box; a fallback emits the whole box. */
  function RuleSplit(rule: Rule, cur: Box): (r: Option<(seq<Output>, Box)>)
    ensures r.None? <==> rule.ordering != Equal && !IsCategory(rule.category)
    ensures r.Some? ==> |r.value.0| <= 1 && forall k :: 0 <= k < |r.value.0| ==> r.value.0[k].0 == rule.target
  {
    var c, n, t := rule.category, rule.number, rule.target;
    match rule.ordering
    case Equal => Some(([(t, cur)], cur))
    case Less =>
      if !IsCategory(c) then None
      else
        var iv := Get(cur, c);
        Some((if iv.start < n then [(t, With(cur, c, Interval(iv.start, Min(iv.end, n - 1))))] else [],
              With(cur, c, Interval(Max(iv.start, n), iv.end))))
    case Greater =>
      if !IsCategory(c) then None
      else
        var iv := Get(cur, c);
        Some((if iv.end > n then [(t, With(cur, c, Interval(Max(iv.start, n + 1), iv.end)))] else [],
              With(cur, c, Interval(iv.start, Min(iv.end, n)))))
  }

  /** The labels of the boxes in `out` that contain `p`, in order. */
  function Labels(out: seq<Output>, p: Part): seq<string> {
    if out == [] then [] else (if Contains(out[0].1, p) then [out[0].0] else []) + Labels(out[1..], p)
  }

  lemma {:induction false} LabelsAppend(a: seq<Output>, b: seq<Output>, p: Part)
    ensures Labels(a + b, p) == Labels(a, p) + Labels(b, p)
  {
    if a == [] {
      assert a + b == b;
    } else {
      assert (a + b)[1..] == a[1..] + b;
      LabelsAppend(a[1..], b, p);
    }
  }

  /** A comparison emits exactly the points of the box where it holds and keeps
      exactly those where it fails. */
  lemma {:induction false} RuleSplitRoutes(rule: Rule, cur: Box, p: Part)
    requires RuleSplit(rule, cur).Some?
    ensures Labels(RuleSplit(rule, cur).value.0, p) ==
      (if Contains(cur, p) && Holds(rule, p) == Some(true) then [rule.target] else [])
    ensures rule.ordering != Equal ==>
      (Contains(RuleSplit(rule, cur).value.1, p) <==> Contains(cur, p) && Holds(rule, p) == Some(false))
  {
    if rule.ordering != Equal {
      ComparisonSplitRoutes(rule, cur, p);
    } else {
      var out := RuleSplit(rule, cur).value.0;
      assert out[1..] == [];
    }
  }

  /** The comparison case of `RuleSplitRoutes`. */
  lemma {:induction false} ComparisonSplitRoutes(rule: Rule, cur: Box, p: Part)
    requires RuleSplit(rule, cur).Some? && rule.ordering != Equal
    ensures Labels(RuleSplit(rule, cur).value.0, p) ==
      (if Contains(cur, p) && Holds(rule, p) == Some(true) then [rule.target] else [])
    ensures Contains(RuleSplit(rule, cur).value.1, p) <==> Contains(cur, p) && Holds(rule, p) == Some(false)
  {
    var (out, rest) := RuleSplit(rule, cur).value;
    var c := rule.category;
    WithContains(cur, c, Get(rest, c), p);
    if out != [] {
      WithContains(cur, c, Get(out[0].1, c), p);
      assert Labels(out, p) == (if Contains(out[0].1, p) then [rule.target] else []) by {
        assert out[1..] == [];
      }
    }
  }

  /** `send_hyp_part` as specified: the rules applied in order, the fallback emitting
      whatever is left. */
  function SplitBox(rules: seq<Rule>, cur: Box): Option<seq<Output>> {
    if rules == [] then Some([])
    else match RuleSplit(rules[0], cur)
      case None => None
      case Some((out, rest)) => Prepend(out, SplitBox(rules[1..], rest))
  }

  function Prepend(prefix: seq<Output>, o: Option<seq<Output>>): Option<seq<Output>> {
    match o
    case None => None
    case Some(s) => Some(prefix + s)
  }

  /** A fallback rule, if any, comes last (the parser only makes one from a rule
      without a condition, which closes a workflow). */
  predicate FallbackLast(rules: seq<Rule>) {
    forall i :: 0 <= i < |rules| - 1 ==> rules[i].ordering != Equal
  }

  function Option2Seq(o: Option<string>): seq<string> {
    match o
    case None => []
    case Some(t) => [t]
  }

  /** The split agrees with `send_part` point by point: a point of the box lies in
      exactly one emitted box, labelled with its route, or in none when it has no
      route; a point outside the box lies in none. */
  lemma {:induction false} SplitRoutes(rules: seq<Rule>, cur: Box, p: Part)
    requires SplitBox(rules, cur).Some? && FallbackLast(rules)
    ensures Labels(SplitBox(rules, cur).value, p) == if Contains(cur, p) then Option2Seq(Route(rules, p)) else []
  {
    if rules != [] {
      var (out, rest) := RuleSplit(rules[0], cur).value;
      RuleSplitRoutes(rules[0], cur, p);
      var tail := SplitBox(rules[1..], rest).value;
      LabelsAppend(out, tail, p);
      if rules[0].ordering == Equal {
        assert rules[1..] == [];
      } else {
        assert FallbackLast(rules[1..]) by {
          forall i | 0 <= i < |rules[1..]| - 1 ensures rules[1..][i].ordering != Equal {
            assert rules[1..][i] == rules[i + 1];
          }
        }
        SplitRoutes(rules[1..], rest, p);
      }
    }
  }

  /** `send_hyp_part`, with each emitted and remaining range clamped to the box. */
  method SendHypPart(w: Workflow, hypPart: Box) returns (r: Option<seq<Output>>)
    ensures r == SplitBox(w.rules, hypPart)
  {
    var result: seq<Output> := [];
    var curr := hypPart;
    assert w.rules[0..] == w.rules;
    PrependEmpty(SplitBox(w.rules, hypPart));
    for i := 0 to |w.rules|
      invariant SplitBox(w.rules, hypPart) == Prepend(result, SplitBox(w.rules[i..], curr))
    {
      var rule := w.rules[i];
      assert w.rules[i..][1..] == w.rules[i + 1..];
      var c, n := rule.category, rule.number;
      ghost var before, prior := result, curr;
      match rule.ordering {
        case Less =>
          if !IsCategory(c) {
            return None;
          }
          var iv := Get(curr, c);
          if iv.start < n {
            var hi := if iv.end < n - 1 then iv.end else n - 1;
            result := result + [(rule.target, With(curr, c, Interval(iv.start, hi)))];
          }
          var lo := if iv.start > n then iv.start else n;
          curr := With(curr, c, Interval(lo, iv.end));
        case Greater =>
          if !IsCategory(c) {
            return None;
          }
          var iv := Get(curr, c);
          if iv.end > n {
            var lo := if iv.start > n + 1 then iv.start else n + 1;
            result := result + [(rule.target, With(curr, c, Interval(lo, iv.end)))];
          }
          var hi := if iv.end < n then iv.end else n;
          curr := With(curr, c, Interval(iv.start, hi));
        case Equal =>
          result := result + [(rule.target, curr)];
      }
      assert before + result[|before|..] == result;
      assert RuleSplit(rule, prior) == Some((result[|before|..], curr));
      PrependAssoc(before, result[|before|..], SplitBox(w.rules[i + 1..], curr));
    }
    assert w.rules[|w.rules|..] == [];
    assert result + [] == result;
    return Some(result);
  }

  lemma {:induction false} PrependEmpty(o: Option<seq<Output>>)
    ensures Prepend([], o) == o
  {
    if o.Some? {
      assert [] + o.value == o.value;
    }
  }

  lemma {:induction false} PrependAssoc(a: seq<Output>, b: seq<Output>, o: Option<seq<Output>>)
    ensures Prepend(a, Prepend(b, o)) == Prepend(a + b, o)
  {
    if o.Some? {
      assert a + (b + o.value) == (a + b) + o.value;
    }
  }

  /** The step as the source writes it: the emitted range is `start ..= n - 1` (or
      `n + 1 ..= end`) and the remaining one `n ..= end` (or `start ..= n`), not
      clamped to the box. */
  function RuleSplitAsWritten(rule: Rule, cur: Box): (r: Option<(seq<Output>, Box)>)
    ensures r.None? <==> rule.ordering != Equal && !IsCategory(rule.category)
  {
    var c, n, t := rule.category, rule.number, rule.target;
    match rule.ordering
    case Equal => Some(([(t, cur)], cur))
    case Less =>
      if !IsCategory(c) then None
      else
        var iv := Get(cur, c);
        Some((if iv.start < n then [(t, With(cur, c, Interval(iv.start, n - 1)))] else [],
              With(cur, c, Interval(n, iv.end))))
    case Greater =>
      if !IsCategory(c) then None
      else
        var iv := Get(cur, c);
        Some((if iv.end > n then [(t, With(cur, c, Interval(n + 1, iv.end)))] else [],
              With(cur, c, Interval(iv.start, n))))
  }

  const Ratings := Interval(1, 4000)

  /** Every rating from 1 to 4000 in each category. */
  const Full := Box(Ratings, Ratings, Ratings, Ratings)

  /** For `in{x>1000:R,x<2000:A,R}`: the first rule leaves x in 1..=1000, and the
      second then emits x in 1..=1999 to "A" as written, a box holding x = 1500, which
      the workflow rejects; the clamped step emits x in 1..=1000. */
  lemma {:induction false} UnclampedSplitLeaks()
    ensures var first := RuleSplitAsWritten(Rule("x", Greater, 1000, "R"), Full).value;
      var second := RuleSplitAsWritten(Rule("x", Less, 2000, "A"), first.1).value;
      first.1 == Full.(x := Interval(1, 1000)) &&
      second.0 == [("A", Full.(x := Interval(1, 1999)))] &&
      Contains(second.0[0].1, Part(1500, 1, 1, 1)) && !Contains(first.1, Part(1500, 1, 1, 1))
    ensures var first := RuleSplit(Rule("x", Greater, 1000, "R"), Full).value;
      RuleSplit(Rule("x", Less, 2000, "A"), first.1).value.0 == [("A", Full.(x := Interval(1, 1000)))]
    ensures Route([Rule("x", Greater, 1000, "R"), Rule("x", Less, 2000, "A"), Rule("x", Equal, 0, "R")],
      Part(1500, 1, 1, 1)) == Some("R")
  {
  }

  // ---------------------------------------------------------------- calc_2

  /** The output of one round sorted as the loop of `calc_2` does: boxes for "A" are
      accepted, boxes for "R" dropped, the rest carried to the next round. */
  function Dispatch(out: seq<Output>, next: seq<Output>, accepted: seq<Box>): (seq<Output>, seq<Box>) {
    if out == [] then (next, accepted)
    else if out[0].0 == "A" then Dispatch(out[1..], next, accepted + [out[0].1])
    else if out[0].0 == "R" then Dispatch(out[1..], next, accepted)
    else Dispatch(out[1..], next + [out[0]], accepted)
  }

  /** One round over `curr`, in order; a missing workflow or an unknown category
      panics. */
  function StepFrom(ws: map<string, Workflow>, curr: seq<Output>, next: seq<Output>, accepted: seq<Box>): Option<(seq<Output>, seq<Box>)> {
    if curr == [] then Some((next, accepted))
    else if curr[0].0 !in ws then None
    else match SplitBox(ws[curr[0].0].rules, curr[0].1)
      case None => None
      case Some(out) =>
        var (n, a) := Dispatch(out, next, accepted);
        StepFrom(ws, curr[1..], n, a)
  }

  datatype Search = Done(accepted: seq<Box>) | Crashed | Exhausted

  /** Rounds until nothing is left to route, within `fuel` rounds. */
  function Rounds(ws: map<string, Workflow>, curr: seq<Output>, accepted: seq<Box>, fuel: nat): Search
    decreases fuel
  {
    if curr == [] then Done(accepted)
    else if fuel == 0 then Exhausted
    else match StepFrom(ws, curr, [], accepted)
      case None => Crashed
      case Some((n, a)) => Rounds(ws, n, a, fuel - 1)
  }

  /** `calc_2`. */
  method Calc2(ws: map<string, Workflow>, fuel: nat) returns (r: Search)
    ensures r == Rounds(ws, [("in", Full)], [], fuel)
  {
    var accepted: seq<Box> := [];
    var curr: seq<Output> := [("in", Full)];
    var rounds := 0;
    while curr != []
      invariant rounds <= fuel
      invariant Rounds(ws, curr, accepted, fuel - rounds) == Rounds(ws, [("in", Full)], [], fuel)
      decreases fuel - rounds
    {
      if rounds == fuel {
        return Exhausted;
      }
      ghost var start := accepted;
      var next: seq<Output> := [];
      for i := 0 to |curr|
        invariant StepFrom(ws, curr[i..], next, accepted) == StepFrom(ws, curr, [], start)
      {
        assert curr[i..][1..] == curr[i + 1..];
        var (name, hypPart) := curr[i];
        if name !in ws {
          return Crashed;
        }
        var out := SendHypPart(ws[name], hypPart);
        if out.None? {
          return Crashed;
        }
        ghost var next0, accepted0 := next, accepted;
        for k := 0 to |out.value|
          invariant Dispatch(out.value[k..], next, accepted) == Dispatch(out.value, next0, accepted0)
        {
          assert out.value[k..][1..] == out.value[k + 1..];
          var (target, b) := out.value[k];
          if target == "A" {
            accepted := accepted + [b];
          } else if target != "R" {
            next := next + [out.value[k]];
          }
        }
        assert out.value[|out.value|..] == [];
      }
      assert curr[|curr|..] == [];
      curr := next;
      rounds := rounds + 1;
    }
    return Done(accepted);
  }

  /** How many boxes of `boxes` contain `p`. */
  function Hits(boxes: seq<Box>, p: Part): nat {
    if boxes == [] then 0 else (if Contains(boxes[0], p) then 1 else 0) + Hits(boxes[1..], p)
  }

  lemma {:induction false} HitsSnoc(boxes: seq<Box>, b: Box, p: Part)
    ensures Hits(boxes + [b], p) == Hits(boxes, p) + (if Contains(b, p) then 1 else 0)
  {
    if boxes == [] {
      assert [] + [b] == [b];
    } else {
      assert (boxes + [b])[1..] == boxes[1..] + [b];
      HitsSnoc(boxes[1..], b, p);
    }
  }

  function Pending(labels: seq<string>): seq<string> {
    if labels == [] then []
    else (if labels[0] == "A" || labels[0] == "R" then [] else [labels[0]]) + Pending(labels[1..])
  }

  function CountA(labels: seq<string>): nat {
    if labels == [] then 0 else (if labels[0] == "A" then 1 else 0) + CountA(labels[1..])
  }

  /** Sorting a round's output moves each label of `p` to the accepted boxes, to the
      next round, or drops it. */
  lemma {:induction false} DispatchSpec(out: seq<Output>, next: seq<Output>, accepted: seq<Box>, p: Part)
    ensures Labels(Dispatch(out, next, accepted).0, p) == Labels(next, p) + Pending(Labels(out, p))
    ensures Hits(Dispatch(out, next, accepted).1, p) == Hits(accepted, p) + CountA(Labels(out, p))
  {
    if out != [] {
      var e := out[0];
      var head := if Contains(e.1, p) then [e.0] else [];
      assert Labels(out, p) == head + Labels(out[1..], p);
      var rest := Labels(out[1..], p);
      if head == [] {
        assert head + rest == rest;
      } else {
        assert (head + rest)[0] == e.0 && (head + rest)[1..] == rest;
        assert head[1..] == [];
      }
      if e.0 == "A" {
        DispatchSpec(out[1..], next, accepted + [e.1], p);
        HitsSnoc(accepted, e.1, p);
      } else if e.0 == "R" {
        DispatchSpec(out[1..], next, accepted, p);
      } else {
        DispatchSpec(out[1..], next + [e], accepted, p);
        LabelsAppend(next, [e], p);
      }
    }
  }

  /** Every workflow's fallback, if any, is its last rule. */
  predicate WellFormed(ws: map<string, Workflow>) {
    forall name :: name in ws ==> FallbackLast(ws[name].rules)
  }

  /** A round changes nothing for a point no box of `curr` contains. */
  lemma {:induction false} StepMisses(ws: map<string, Workflow>, curr: seq<Output>, next: seq<Output>, accepted: seq<Box>, p: Part)
    requires WellFormed(ws) && StepFrom(ws, curr, next, accepted).Some? && Labels(curr, p) == []
    ensures Labels(StepFrom(ws, curr, next, accepted).value.0, p) == Labels(next, p)
    ensures Hits(StepFrom(ws, curr, next, accepted).value.1, p) == Hits(accepted, p)
  {
    if curr != [] {
      var out := SplitBox(ws[curr[0].0].rules, curr[0].1).value;
      SplitRoutes(ws[curr[0].0].rules, curr[0].1, p);
      DispatchSpec(out, next, accepted, p);
      var (n, a) := Dispatch(out, next, accepted);
      assert Labels(next, p) + [] == Labels(next, p);
      StepMisses(ws, curr[1..], n, a, p);
    }
  }

  /** A round moves a point held by the one box labelled `name` along its route. */
  lemma {:induction false} StepRoutes(ws: map<string, Workflow>, curr: seq<Output>, next: seq<Output>, accepted: seq<Box>, p: Part, name: string)
    requires WellFormed(ws) && StepFrom(ws, curr, next, accepted).Some? && Labels(curr, p) == [name]
    ensures name in ws
    ensures Labels(StepFrom(ws, curr, next, accepted).value.0, p) == Labels(next, p) + Pending(Option2Seq(Route(ws[name].rules, p)))
    ensures Hits(StepFrom(ws, curr, next, accepted).value.1, p) == Hits(accepted, p) + CountA(Option2Seq(Route(ws[name].rules, p)))
  {
    var out := SplitBox(ws[curr[0].0].rules, curr[0].1).value;
    SplitRoutes(ws[curr[0].0].rules, curr[0].1, p);
    DispatchSpec(out, next, accepted, p);
    var (n, a) := Dispatch(out, next, accepted);
    assert curr[0].0 in ws;
    if Contains(curr[0].1, p) {
      assert Labels(curr, p) == [curr[0].0] + Labels(curr[1..], p);
      assert ([curr[0].0] + Labels(curr[1..], p))[0] == curr[0].0;
      assert curr[0].0 == name && |Labels(curr[1..], p)| == 0;
      StepMisses(ws, curr[1..], n, a, p);
    } else {
      assert Labels(next, p) + [] == Labels(next, p);
      StepRoutes(ws, curr[1..], n, a, p, name);
    }
  }

  /** The rounds leave the accepted count of a point no box holds unchanged. */
  lemma {:induction false} RoundsMiss(ws: map<string, Workflow>, curr: seq<Output>, accepted: seq<Box>, fuel: nat, p: Part)
    requires WellFormed(ws) && Rounds(ws, curr, accepted, fuel).Done? && Labels(curr, p) == []
    ensures Hits(Rounds(ws, curr, accepted, fuel).accepted, p) == Hits(accepted, p)
    decreases fuel
  {
    if curr != [] {
      StepMisses(ws, curr, [], accepted, p);
      var (n, a) := StepFrom(ws, curr, [], accepted).value;
      RoundsMiss(ws, n, a, fuel - 1, p);
    }
  }

  /** The rounds accept a point held by one box labelled `name` exactly once when
      the run of `calc` from `name` accepts it, and never otherwise. */
  lemma {:induction false} RoundsFollowRun(ws: map<string, Workflow>, curr: seq<Output>, accepted: seq<Box>, fuel: nat, p: Part, name: string)
    requires WellFormed(ws) && Rounds(ws, curr, accepted, fuel).Done?
    requires Labels(curr, p) == [name] && name != "A" && name != "R"
    ensures Hits(Rounds(ws, curr, accepted, fuel).accepted, p) ==
      Hits(accepted, p) + (if Run(ws, p, name, fuel) == Accept then 1 else 0)
    decreases fuel
  {
    StepRoutes(ws, curr, [], accepted, p, name);
    var (n, a) := StepFrom(ws, curr, [], accepted).value;
    var route := Route(ws[name].rules, p);
    assert Labels([], p) == [];
    if route.None? {
      RoundsMiss(ws, n, a, fuel - 1, p);
    } else if route.value == "A" || route.value == "R" {
      RoundsMiss(ws, n, a, fuel - 1, p);
    } else {
      RoundsFollowRun(ws, n, a, fuel - 1, p, route.value);
    }
  }

  /** What `calc_2` computes: a rating lies in exactly one accepted box when `calc`
      accepts it from "in", and in none otherwise. */
  lemma {:induction false} AcceptedBoxesMatchCalc(ws: map<string, Workflow>, fuel: nat, p: Part)
    requires WellFormed(ws) && Rounds(ws, [("in", Full)], [], fuel).Done?
    ensures Hits(Rounds(ws, [("in", Full)], [], fuel).accepted, p) ==
      if Contains(Full, p) && Run(ws, p, "in", fuel) == Accept then 1 else 0
  {
    var curr := [("in", Full)];
    assert curr[1..] == [];
    if Contains(Full, p) {
      RoundsFollowRun(ws, curr, [], fuel, p, "in");
    } else {
      RoundsMiss(ws, curr, [], fuel, p);
    }
  }

  // ---------------------------------------------------------------- part two

  function AxisOverlap(a: Interval, b: Interval): (r: nat)
    ensures r > 0 <==> exists v: nat :: In(v, a) && In(v, b)
  {
    var lo := Max(a.start, b.start);
    var hi := Min(a.end, b.end);
    assert hi >= lo ==> In(lo, a) && In(lo, b);
    if hi >= lo then hi - lo + 1 else 0
  }

  /** `get_overlap`: how many ratings two boxes share. */
  function Overlap(me: Box, other: Box): nat {
    AxisOverlap(me.x, other.x) * AxisOverlap(me.m, other.m) * AxisOverlap(me.a, other.a) * AxisOverlap(me.s, other.s)
  }

  lemma {:induction false} ProductPositive(a: nat, b: nat, c: nat, d: nat)
    ensures a * b * c * d > 0 <==> a > 0 && b > 0 && c > 0 && d > 0
  {
    if a > 0 && b > 0 && c > 0 && d > 0 {
      assert a * b > 0;
      assert a * b * c > 0;
    }
  }

  /** Two boxes overlap exactly when some rating lies in both. */
  lemma {:induction false} OverlapShared(me: Box, other: Box)
    ensures Overlap(me, other) > 0 <==> exists p :: Contains(me, p) && Contains(other, p)
  {
    ProductPositive(AxisOverlap(me.x, other.x), AxisOverlap(me.m, other.m), AxisOverlap(me.a, other.a), AxisOverlap(me.s, other.s));
    if Overlap(me, other) > 0 {
      var x: nat :| In(x, me.x) && In(x, other.x);
      var m: nat :| In(m, me.m) && In(m, other.m);
      var a: nat :| In(a, me.a) && In(a, other.a);
      var s: nat :| In(s, me.s) && In(s, other.s);
      assert Contains(me, Part(x, m, a, s)) && Contains(other, Part(x, m, a, s));
    }
    if exists p :: Contains(me, p) && Contains(other, p) {
      var p :| Contains(me, p) && Contains(other, p);
      assert In(p.x, me.x) && In(p.x, other.x);
      assert In(p.m, me.m) && In(p.m, other.m);
      assert In(p.a, me.a) && In(p.a, other.a);
      assert In(p.s, me.s) && In(p.s, other.s);
    }
  }

  lemma {:induction false} OverlapSymmetric(me: Box, other: Box)
    ensures Overlap(me, other) == Overlap(other, me)
  {
    OverlapShared(me, other);
    OverlapShared(other, me);
    assert AxisOverlap(me.x, other.x) == AxisOverlap(other.x, me.x);
    assert AxisOverlap(me.m, other.m) == AxisOverlap(other.m, me.m);
    assert AxisOverlap(me.a, other.a) == AxisOverlap(other.a, me.a);
    assert AxisOverlap(me.s, other.s) == AxisOverlap(other.s, me.s);
  }

  function Volume(b: Box): nat {
    Width(b.x) * Width(b.m) * Width(b.a) * Width(b.s)
  }

  /** The summed overlaps of `b` with the boxes visited before it. */
  function Deduction(b: Box, visited: seq<Box>): nat {
    if visited == [] then 0 else Deduction(b, visited[..|visited| - 1]) + Overlap(b, visited[|visited| - 1])
  }

  /** The count of `part_two`: each box's volume less its overlaps with the earlier
      boxes, the deduction capped at the volume. */
  function Total(boxes: seq<Box>): nat {
    if boxes == [] then 0
    else
      var b := boxes[|boxes| - 1];
      Total(boxes[..|boxes| - 1]) + Volume(b) - Min(Deduction(b, boxes[..|boxes| - 1]), Volume(b))
  }

  function SumVolumes(boxes: seq<Box>): nat {
    if boxes == [] then 0 else SumVolumes(boxes[..|boxes| - 1]) + Volume(boxes[|boxes| - 1])
  }

  /** The capped deduction never adds. */
  lemma {:induction false} TotalAtMostVolumes(boxes: seq<Box>)
    ensures Total(boxes) <= SumVolumes(boxes)
  {
    if boxes != [] {
      TotalAtMostVolumes(boxes[..|boxes| - 1]);
    }
  }

  lemma {:induction false} DeductionDisjoint(b: Box, visited: seq<Box>)
    requires forall j :: 0 <= j < |visited| ==> Overlap(visited[j], b) == 0
    ensures Deduction(b, visited) == 0
  {
    if visited != [] {
      OverlapSymmetric(visited[|visited| - 1], b);
      DeductionDisjoint(b, visited[..|visited| - 1]);
    }
  }

  /** For pairwise disjoint boxes nothing is deducted. */
  lemma {:induction false} TotalDisjoint(boxes: seq<Box>)
    requires forall i, j :: 0 <= i < j < |boxes| ==> Overlap(boxes[i], boxes[j]) == 0
    ensures Total(boxes) == SumVolumes(boxes)
  {
    if boxes != [] {
      var prefix := boxes[..|boxes| - 1];
      DeductionDisjoint(boxes[|boxes| - 1], prefix);
      TotalDisjoint(prefix);
    }
  }

  lemma {:induction false} HitsTwo(boxes: seq<Box>, i: nat, j: nat, p: Part)
    requires i < j < |boxes| && Contains(boxes[i], p) && Contains(boxes[j], p)
    ensures Hits(boxes, p) >= 2
  {
    if i == 0 {
      HitsOne(boxes[1..], j - 1, p);
    } else {
      HitsTwo(boxes[1..], i - 1, j - 1, p);
    }
  }

  lemma {:induction false} HitsOne(boxes: seq<Box>, j: nat, p: Part)
    requires j < |boxes| && Contains(boxes[j], p)
    ensures Hits(boxes, p) >= 1
  {
    if j > 0 {
      HitsOne(boxes[1..], j - 1, p);
    }
  }

  /** The accepted boxes are pairwise disjoint, so the count of `part_two` is the sum
      of their volumes. */
  lemma {:induction false} AcceptedTotal(ws: map<string, Workflow>, fuel: nat)
    requires WellFormed(ws) && Rounds(ws, [("in", Full)], [], fuel).Done?
    ensures var boxes := Rounds(ws, [("in", Full)], [], fuel).accepted;
      Total(boxes) == SumVolumes(boxes)
  {
    var boxes := Rounds(ws, [("in", Full)], [], fuel).accepted;
    forall i, j | 0 <= i < j < |boxes| ensures Overlap(boxes[i], boxes[j]) == 0 {
      OverlapShared(boxes[i], boxes[j]);
      if Overlap(boxes[i], boxes[j]) > 0 {
        var p :| Contains(boxes[i], p) && Contains(boxes[j], p);
        HitsTwo(boxes, i, j, p);
        AcceptedBoxesMatchCalc(ws, fuel, p);
      }
    }
    TotalDisjoint(boxes);
  }

  /** The counting loop of `part_two`. */
  method CountCombinations(boxes: seq<Box>) returns (combinations: nat)
    ensures combinations == Total(boxes)
  {
    combinations := 0;
    for i := 0 to |boxes|
      invariant combinations == Total(boxes[..i])
    {
      var b := boxes[i];
      var comb := Width(b.x) * Width(b.m) * Width(b.a) * Width(b.s);
      var deduct := 0;
      for j := 0 to i
        invariant deduct == Deduction(b, boxes[..j])
      {
        assert boxes[..j + 1][..j] == boxes[..j];
        deduct := deduct + Overlap(b, boxes[j]);
      }
      if deduct > comb {
        deduct := comb;
      }
      assert boxes[..i + 1][..i] == boxes[..i];
      combinations := combinations + comb - deduct;
    }
    assert boxes[..|boxes|] == boxes;
  }

  // ---------------------------------------------------------------- parsing

  /** One rule: without ':' a fallback; otherwise "c>n:t" if the condition holds a
      '>', else "c<n:t". */
  function ParseRule(tr: string): Option<Rule> {
    var parts := SplitChar(tr, ':');
    if |parts| == 1 then Some(Rule("x", Equal, 0, parts[0]))
    else
      var condition, target := parts[0], parts[1];
      var sep := if '>' in condition then '>' else '<';
      var pieces := SplitChar(condition, sep);
      if |pieces| < 2 then None
      else match ParseNat(pieces[1])
        case None => None
        case Some(n) => Some(Rule(pieces[0], if sep == '>' then Greater else Less, n, target))
  }

  /** A rule without ':' is the fallback to its text. */
  lemma {:induction false} ParseFallback(tr: string)
    requires ':' !in tr
    ensures ParseRule(tr) == Some(Rule("x", Equal, 0, tr))
  {
    SplitCharAbsent(tr, ':');
  }

  /** Printing a comparison rule and parsing it back gives the rule. */
  lemma {:induction false} ParseComparison(c: string, greater: bool, n: nat, t: string)
    requires ':' !in c && '>' !in c && '<' !in c && ':' !in t
    ensures var sep := if greater then '>' else '<';
      ParseRule(c + [sep] + NatToString(n) + [':'] + t) == Some(Rule(c, if greater then Greater else Less, n, t))
  {
    var sep := if greater then '>' else '<';
    var digits := NatToString(n);
    var condition := c + [sep] + digits;
    assert ':' !in digits && '>' !in digits && '<' !in digits by {
      assert AllDigits(digits);
    }
    assert ':' !in condition;
    SplitCharAt(condition, ':', t);
    SplitCharAbsent(t, ':');
    assert (sep == '>') == ('>' in condition);
    SplitCharAt(c, sep, digits);
    SplitCharAbsent(digits, sep);
    ParseNatToString(n);
  }

  function ParseRules(trs: seq<string>): (r: Option<seq<Rule>>)
    ensures r.Some? ==> |r.value| == |trs|
  {
    if trs == [] then Some([])
    else match (ParseRule(trs[0]), ParseRules(trs[1..]))
      case (Some(rule), Some(rest)) => Some([rule] + rest)
      case _ => None
  }

  /** `Workflow::from_str`: "name{rule,...,rule}"; the closing character is dropped
      unchecked. */
  function ParseWorkflow(s: string): Option<Workflow> {
    var pieces := SplitChar(s, '{');
    if |pieces| < 2 || pieces[1] == "" then None
    else
      var body := pieces[1][..|pieces[1]| - 1];
      match ParseRules(SplitChar(body, ','))
      case None => None
      case Some(rules) => Some(Workflow(pieces[0], rules))
  }

  function ParseWorkflows(lines: seq<string>): (r: Option<seq<Workflow>>)
    ensures r.Some? ==> |r.value| == |lines|
  {
    if lines == [] then Some([])
    else match (ParseWorkflow(lines[0]), ParseWorkflows(lines[1..]))
      case (Some(w), Some(rest)) => Some([w] + rest)
      case _ => None
  }

  /** Collected into a map by name; a later workflow of the same name wins. */
  function Index(ws: seq<Workflow>): (r: map<string, Workflow>)
    ensures forall name :: name in r <==> exists i :: 0 <= i < |ws| && ws[i].name == name
    ensures forall name :: name in r ==> r[name].name == name
  {
    if ws == [] then map[]
    else
      var prefix := Index(ws[..|ws| - 1]);
      assert forall i :: 0 <= i < |ws| - 1 ==> ws[..|ws| - 1][i] == ws[i];
      prefix[ws[|ws| - 1].name := ws[|ws| - 1]]
  }

  /** "name=value". */
  function ParseRating(f: string): Option<(string, nat)> {
    var kv := SplitChar(f, '=');
    if |kv| < 2 then None
    else match ParseNat(kv[1])
      case None => None
      case Some(v) => Some((kv[0], v))
  }

  /** The ratings collected into a map; a later name wins. */
  function ParseRatings(fields: seq<string>): Option<map<string, nat>> {
    if fields == [] then Some(map[])
    else match (ParseRatings(fields[..|fields| - 1]), ParseRating(fields[|fields| - 1]))
      case (Some(m), Some((k, v))) => Some(m[k := v])
      case _ => None
  }

  /** `Part::from_str`: "{x=..,m=..,a=..,s=..}"; the braces are dropped unchecked and
      a missing category panics. */
  function ParsePart(s: string): (r: Option<Part>)
    ensures r.Some? ==> |s| >= 2
  {
    if |s| < 2 then None
    else match ParseRatings(SplitChar(s[1..|s| - 1], ','))
      case None => None
      case Some(m) =>
        if "x" in m && "m" in m && "a" in m && "s" in m then Some(Part(m["x"], m["m"], m["a"], m["s"])) else None
  }

  function ParseParts(lines: seq<string>): (r: Option<seq<Part>>)
    ensures r.Some? ==> |r.value| == |lines|
  {
    if lines == [] then Some([])
    else match (ParsePart(lines[0]), ParseParts(lines[1..]))
      case (Some(p), Some(rest)) => Some([p] + rest)
      case _ => None
  }

  /** The two blocks, separated by a blank line. */
  function ParseInput(input: string): Option<(map<string, Workflow>, seq<Part>)> {
    var blocks := Split(input, "\n\n");
    if |blocks| < 2 then None
    else match (ParseWorkflows(Lines(blocks[0])), ParseParts(Lines(blocks[1])))
      case (Some(ws), Some(parts)) => Some((Index(ws), parts))
      case _ => None
  }

  /** The workflow block alone, as `part_two` reads it: the parts block must exist but
      is not parsed. */
  function ParseWorkflowBlock(input: string): Option<map<string, Workflow>> {
    var blocks := Split(input, "\n\n");
    if |blocks| < 2 then None
    else match ParseWorkflows(Lines(blocks[0]))
      case Some(ws) => Some(Index(ws))
      case None => None
  }

  /** Both parts read the same workflows; `part_two` accepts every input `part_one`
      accepts. */
  lemma {:induction false} WorkflowBlockAgrees(input: string)
    ensures ParseInput(input).Some? ==> ParseWorkflowBlock(input) == Some(ParseInput(input).value.0)
  {
  }

  function Rating(p: Part): nat {
    p.x + p.m + p.a + p.s
  }

  /** The summed ratings of the accepted parts; None when a run panics or runs out of
      fuel. */
  function AcceptedRatings(ws: map<string, Workflow>, parts: seq<Part>, fuel: nat): Option<nat> {
    if parts == [] then Some(0)
    else match (Run(ws, parts[0], "in", fuel), AcceptedRatings(ws, parts[1..], fuel))
      case (Accept, Some(rest)) => Some(Rating(parts[0]) + rest)
      case (Reject, Some(rest)) => Some(rest)
      case _ => None
  }

  /** Once every run has finished, more fuel changes nothing. */
  lemma {:induction false} AcceptedRatingsFuel(ws: map<string, Workflow>, parts: seq<Part>, fuel: nat, more: nat)
    requires AcceptedRatings(ws, parts, fuel).Some?
    ensures AcceptedRatings(ws, parts, fuel + more) == AcceptedRatings(ws, parts, fuel)
  {
    if parts != [] {
      RunFuel(ws, parts[0], "in", fuel, more);
      AcceptedRatingsFuel(ws, parts[1..], fuel, more);
    }
  }

  /** `Some(total)` when `o` is `Some`. */
  function Plus(total: nat, o: Option<nat>): Option<nat> {
    if o.None? then None else Some(total + o.value)
  }

  /** The loop of `part_one`: `calc` on each part, summing the accepted ratings. */
  method SumAccepted(ws: map<string, Workflow>, parts: seq<Part>, fuel: nat) returns (r: Option<nat>)
    ensures r == AcceptedRatings(ws, parts, fuel)
  {
    var total: nat := 0;
    var i := 0;
    while i < |parts|
      invariant 0 <= i <= |parts|
      invariant AcceptedRatings(ws, parts, fuel) == Plus(total, AcceptedRatings(ws, parts[i..], fuel))
    {
      assert parts[i..][1..] == parts[i + 1..];
      var verdict := Calc(parts[i], ws, fuel);
      if verdict == Accept {
        total := total + Rating(parts[i]);
      } else if verdict != Reject {
        return None;
      }
      i := i + 1;
    }
    assert parts[i..] == [];
    return Some(total);
  }

  /** `part_one`. */
  method PartOne(input: string, fuel: nat) returns (r: Option<nat>)
    ensures ParseInput(input).None? ==> r.None?
    ensures ParseInput(input).Some? ==>
      r == AcceptedRatings(ParseInput(input).value.0, ParseInput(input).value.1, fuel)
  {
    var parsed := ParseInput(input);
    if parsed.None? {
      return None;
    }
    r := SumAccepted(parsed.value.0, parsed.value.1, fuel);
  }

  /** `part_two`: the count over the accepted boxes; None when the input is malformed,
      a round panics or the rounds run out of fuel. */
  method PartTwo(input: string, fuel: nat) returns (r: Option<nat>)
    ensures ParseWorkflowBlock(input).None? ==> r.None?
    ensures ParseWorkflowBlock(input).Some? ==> match Rounds(ParseWorkflowBlock(input).value, [("in", Full)], [], fuel)
      case Done(boxes) => r == Some(Total(boxes))
      case _ => r.None?
  {
    var parsed := ParseWorkflowBlock(input);
    if parsed.None? {
      return None;
    }
    var search := Calc2(parsed.value, fuel);
    if !search.Done? {
      return None;
    }
    var combinations := CountCombinations(search.accepted);
    return Some(combinations);
  }
}
