/** Day 20: pulse propagation. Broadcast, flip-flop and conjunction modules pass high
    and low pulses along their outputs; each button press runs the cascade to the end,
    and the flip-flops and conjunctions keep their state between presses. */
module Day20Pulses {
  import opened Prelude

  datatype Pulse = High | Low

  /** (sender, receiver, pulse). */
  type Signal = (string, string, Pulse)

  datatype Kind = Broadcast | FlipFlop | Conjunction

  /** The value of a module: its wiring and its mutable state. */
  datatype State = State(kind: Kind, id: string, outputs: seq<string>, enabled: bool, lastPulses: map<string, Pulse>)

  /** One pulse from `id` to every output, in output order. */
  function Send(id: string, outputs: seq<string>, pulse: Pulse): (r: seq<Signal>)
    ensures |r| == |outputs| && forall i :: 0 <= i < |r| ==> r[i] == (id, outputs[i], pulse)
  {
    seq(|outputs|, i requires 0 <= i < |outputs| => (id, outputs[i], pulse))
  }

  predicate AllHigh(memory: map<string, Pulse>) {
    forall k :: k in memory ==> memory[k] == High
  }

  /** `process` for each kind of module: the new state and the pulses sent. */
  function Respond(s: State, input: (string, Pulse)): (r: (State, seq<Signal>))
    ensures r.0.kind == s.kind && r.0.id == s.id && r.0.outputs == s.outputs
  {
    match s.kind
    case Broadcast => (s, Send(s.id, s.outputs, input.1))
    case FlipFlop =>
      if input.1 == High then (s, [])
      else (s.(enabled := !s.enabled), Send(s.id, s.outputs, if s.enabled then Low else High))
    case Conjunction =>
      var memory := s.lastPulses[input.0 := input.1];
      (s.(lastPulses := memory), Send(s.id, s.outputs, if AllHigh(memory) then Low else High))
  }

  /** A broadcast module forwards the pulse to every output, in order, and keeps its
      state. */
  lemma {:induction false} BroadcastForwards(s: State, input: (string, Pulse))
    requires s.kind == Broadcast
    ensures Respond(s, input).0 == s
    ensures |Respond(s, input).1| == |s.outputs|
    ensures forall i :: 0 <= i < |s.outputs| ==> Respond(s, input).1[i] == (s.id, s.outputs[i], input.1)
  {
  }

  /** A flip-flop ignores a high pulse. */
  lemma {:induction false} FlipFlopIgnoresHigh(s: State, from: string)
    requires s.kind == FlipFlop
    ensures Respond(s, (from, High)) == (s, [])
  {
  }

  /** Two low pulses bring a flip-flop back to its state; from off, the first turns
      it on and sends high, the second turns it off and sends low. */
  lemma {:induction false} FlipFlopCycle(s: State, a: string, b: string)
    requires s.kind == FlipFlop && !s.enabled
    ensures var (s1, out1) := Respond(s, (a, Low));
      var (s2, out2) := Respond(s1, (b, Low));
      s1.enabled && s2 == s &&
      out1 == Send(s.id, s.outputs, High) && out2 == Send(s.id, s.outputs, Low)
  {
  }

  /** A conjunction sends low to every output exactly when every remembered pulse,
      the one just received included, is high. */
  lemma {:induction false} ConjunctionNand(s: State, input: (string, Pulse), i: nat)
    requires s.kind == Conjunction && i < |s.outputs|
    ensures var (s1, out) := Respond(s, input);
      s1.lastPulses == s.lastPulses[input.0 := input.1] &&
      (out[i].2 == Low <==> forall k :: k in s1.lastPulses ==> s1.lastPulses[k] == High)
  {
  }

  /** A conjunction that has heard high from every one of its inputs sends low. */
  lemma {:induction false} ConjunctionAllHeard(s: State, input: (string, Pulse))
    requires s.kind == Conjunction && input.1 == High && s.outputs != []
    requires forall k :: k in s.lastPulses && k != input.0 ==> s.lastPulses[k] == High
    ensures Respond(s, input).1[0].2 == Low
  {
  }

  /** A module with mutable state, updated in place by `Process`. */
  class Module {
    const kind: Kind
    const id: string
    const outputs: seq<string>
    var enabled: bool
    var lastPulses: map<string, Pulse>

    function View(): State
      reads this
    {
      State(kind, id, outputs, enabled, lastPulses)
    }

    /** `new` of each kind: a flip-flop starts off, a conjunction remembers low for
        every input. */
    constructor (kind: Kind, id: string, outputs: seq<string>, inputs: seq<string>)
      ensures View() == Initial(kind, id, outputs, inputs)
    {
      this.kind := kind;
      this.id := id;
      this.outputs := outputs;
      enabled := false;
      lastPulses := if kind == Conjunction then MemoryOf(inputs) else map[];
    }

    /** `Module::process`. */
    method Process(input: (string, Pulse)) returns (out: seq<Signal>)
      modifies this
      ensures View() == Respond(old(View()), input).0
      ensures out == Respond(old(View()), input).1
    {
      match kind {
        case Broadcast =>
          out := Send(id, outputs, input.1);
        case FlipFlop =>
          if input.1 == High {
            return [];
          }
          out := Send(id, outputs, if enabled then Low else High);
          enabled := !enabled;
        case Conjunction =>
          lastPulses := lastPulses[input.0 := input.1];
          out := Send(id, outputs, if AllHigh(lastPulses) then Low else High);
      }
    }
  }

  /** Low remembered for every input id. */
  function MemoryOf(inputs: seq<string>): (r: map<string, Pulse>)
    ensures r.Keys == set i | i in inputs
    ensures forall k :: k in r ==> r[k] == Low
  {
    if inputs == [] then map[] else MemoryOf(inputs[1..])[inputs[0] := Low]
  }

  function Initial(kind: Kind, id: string, outputs: seq<string>, inputs: seq<string>): State {
    State(kind, id, outputs, false, if kind == Conjunction then MemoryOf(inputs) else map[])
  }

  // ---------------------------------------------------------------- one button press

  type Network = map<string, State>

  /** One round over the pulses `curr`, in order: each is counted, and delivered when
      its receiver exists. Returns the network, the pulses sent in reply, and the
      counts. */
  function Round(net: Network, curr: seq<Signal>, next: seq<Signal>, low: nat, high: nat): (r: (Network, seq<Signal>, nat, nat))
    ensures r.0.Keys == net.Keys
  {
    if curr == [] then (net, next, low, high)
    else
      var (from, to, pulse) := curr[0];
      var low', high' := if pulse == Low then low + 1 else low, if pulse == High then high + 1 else high;
      if to in net then
        var (s, out) := Respond(net[to], (from, pulse));
        Round(net[to := s], curr[1..], next + out, low', high')
      else Round(net, curr[1..], next, low', high')
  }

  /** Every pulse of the round is counted once, as low or as high. */
  lemma {:induction false} RoundCounts(net: Network, curr: seq<Signal>, next: seq<Signal>, low: nat, high: nat)
    ensures var r := Round(net, curr, next, low, high); r.2 + r.3 == low + high + |curr|
  {
    if curr != [] {
      var (from, to, pulse) := curr[0];
      var low', high' := if pulse == Low then low + 1 else low, if pulse == High then high + 1 else high;
      if to in net {
        var (s, out) := Respond(net[to], (from, pulse));
        RoundCounts(net[to := s], curr[1..], next + out, low', high');
      } else {
        RoundCounts(net, curr[1..], next, low', high');
      }
    }
  }

  /** A module no pulse of the round is addressed to keeps its state. */
  lemma {:induction false} RoundUntouched(net: Network, curr: seq<Signal>, next: seq<Signal>, low: nat, high: nat, k: string)
    requires k in net && forall i :: 0 <= i < |curr| ==> curr[i].1 != k
    ensures Round(net, curr, next, low, high).0[k] == net[k]
  {
    if curr != [] {
      var (from, to, pulse) := curr[0];
      var low', high' := if pulse == Low then low + 1 else low, if pulse == High then high + 1 else high;
      assert curr[0].1 != k;
      if to in net {
        var (s, out) := Respond(net[to], (from, pulse));
        RoundUntouched(net[to := s], curr[1..], next + out, low', high', k);
      } else {
        RoundUntouched(net, curr[1..], next, low', high', k);
      }
    }
  }

  /** The wiring (kind, id, outputs) of every module survives a round. */
  lemma {:induction false} RoundKeepsWiring(net: Network, curr: seq<Signal>, next: seq<Signal>, low: nat, high: nat, k: string)
    requires k in net
    ensures var s := Round(net, curr, next, low, high).0[k];
      s.kind == net[k].kind && s.id == net[k].id && s.outputs == net[k].outputs
  {
    if curr != [] {
      var (from, to, pulse) := curr[0];
      var low', high' := if pulse == Low then low + 1 else low, if pulse == High then high + 1 else high;
      if to in net {
        var (s, out) := Respond(net[to], (from, pulse));
        RoundKeepsWiring(net[to := s], curr[1..], next + out, low', high', k);
      } else {
        RoundKeepsWiring(net, curr[1..], next, low', high', k);
      }
    }
  }

  /** Rounds until no pulse is left, within `fuel` rounds; the button's own low pulse
      is added at the end. */
  function Cascade(net: Network, curr: seq<Signal>, low: nat, high: nat, fuel: nat): Option<(Network, nat, nat)>
    decreases fuel
  {
    if curr == [] then Some((net, low + 1, high))
    else if fuel == 0 then None
    else
      var (net', next, low', high') := Round(net, curr, [], low, high);
      Cascade(net', next, low', high', fuel - 1)
  }

  /** `run`: the broadcaster receives low from the button; None when there is no
      broadcaster (a panic) or the cascade outlasts `fuel`. */
  function Press(net: Network, fuel: nat): Option<(Network, nat, nat)> {
    if "broadcaster" !in net then None
    else
      var (s, out) := Respond(net["broadcaster"], ("button", Low));
      Cascade(net["broadcaster" := s], out, 0, 0, fuel)
  }

  /** The cascade never adds or removes modules, and counts at least the button. */
  lemma {:induction false} CascadeKeys(net: Network, curr: seq<Signal>, low: nat, high: nat, fuel: nat)
    requires Cascade(net, curr, low, high, fuel).Some?
    ensures Cascade(net, curr, low, high, fuel).value.0.Keys == net.Keys
    ensures Cascade(net, curr, low, high, fuel).value.1 >= low + 1
    decreases fuel
  {
    if curr != [] {
      var (net', next, low', high') := Round(net, curr, [], low, high);
      RoundLowGrows(net, curr, [], low, high);
      CascadeKeys(net', next, low', high', fuel - 1);
    }
  }

  lemma {:induction false} RoundLowGrows(net: Network, curr: seq<Signal>, next: seq<Signal>, low: nat, high: nat)
    ensures Round(net, curr, next, low, high).2 >= low
  {
    if curr != [] {
      var (from, to, pulse) := curr[0];
      var low', high' := if pulse == Low then low + 1 else low, if pulse == High then high + 1 else high;
      if to in net {
        var (s, out) := Respond(net[to], (from, pulse));
        RoundLowGrows(net[to := s], curr[1..], next + out, low', high');
      } else {
        RoundLowGrows(net, curr[1..], next, low', high');
      }
    }
  }

  /** Distinct ids hold distinct module objects. */
  predicate Distinct(modules: map<string, Module>) {
    forall a, b :: a in modules && b in modules && a != b ==> modules[a] != modules[b]
  }

  function Objects(modules: map<string, Module>): set<Module> {
    set k | k in modules :: modules[k]
  }

  function Views(modules: map<string, Module>): Network
    reads Objects(modules)
  {
    map k | k in modules :: modules[k].View()
  }

  lemma {:induction false} RoundStep(net: Network, curr: seq<Signal>, next: seq<Signal>, low: nat, high: nat)
    requires curr != []
    ensures var sig := curr[0];
      var low', high' := if sig.2 == Low then low + 1 else low, if sig.2 == High then high + 1 else high;
      Round(net, curr, next, low, high) ==
        if sig.1 in net then
          Round(net[sig.1 := Respond(net[sig.1], (sig.0, sig.2)).0], curr[1..], next + Respond(net[sig.1], (sig.0, sig.2)).1, low', high')
        else Round(net, curr[1..], next, low', high')
  {
  }

  lemma {:induction false} CascadeStep(net: Network, curr: seq<Signal>, low: nat, high: nat, fuel: nat)
    requires curr != [] && fuel > 0
    ensures var r := Round(net, curr, [], low, high);
      Cascade(net, curr, low, high, fuel) == Cascade(r.0, r.1, r.2, r.3, fuel - 1)
  {
  }

  /** Hands one pulse to its receiver, when that module exists. */
  method Deliver(modules: map<string, Module>, signal: Signal) returns (out: seq<Signal>)
    requires Distinct(modules)
    modifies Objects(modules)
    ensures signal.1 in modules ==>
      Views(modules) == old(Views(modules))[signal.1 := Respond(old(Views(modules))[signal.1], (signal.0, signal.2)).0] &&
      out == Respond(old(Views(modules))[signal.1], (signal.0, signal.2)).1
    ensures signal.1 !in modules ==> Views(modules) == old(Views(modules)) && out == []
  {
    if signal.1 in modules {
      var m := modules[signal.1];
      out := m.Process((signal.0, signal.2));
    } else {
      out := [];
    }
  }

  /** `run`, updating the modules in place. */
  method Run(modules: map<string, Module>, fuel: nat) returns (r: Option<(nat, nat)>)
    requires Distinct(modules)
    modifies Objects(modules)
    ensures Press(old(Views(modules)), fuel).None? ==> r.None?
    ensures Press(old(Views(modules)), fuel).Some? ==> var (net, low, high) := Press(old(Views(modules)), fuel).value;
      r == Some((low, high)) && Views(modules) == net
  {
    ghost var start := Views(modules);
    if "broadcaster" !in modules {
      return None;
    }
    var currResult := Deliver(modules, ("button", "broadcaster", Low));
    ghost var net := Views(modules);
    var low, high := 0, 0;
    var rounds := 0;
    while currResult != []
      invariant rounds <= fuel
      invariant net == Views(modules)
      invariant Press(start, fuel) == Cascade(net, currResult, low, high, fuel - rounds)
      decreases fuel - rounds
    {
      if rounds == fuel {
        return None;
      }
      CascadeStep(net, currResult, low, high, fuel - rounds);
      ghost var after := Round(net, currResult, [], low, high);
      currResult, low, high := DeliverRound(modules, currResult, low, high);
      net := Views(modules);
      assert after == (net, currResult, low, high);
      rounds := rounds + 1;
    }
    return Some((low + 1, high));
  }

  /** One round of `run`: every pending pulse counted and delivered in order, the
      responses collected for the next round. */
  method DeliverRound(modules: map<string, Module>, curr: seq<Signal>, low: nat, high: nat)
    returns (next: seq<Signal>, low': nat, high': nat)
    requires Distinct(modules)
    modifies Objects(modules)
    ensures Round(old(Views(modules)), curr, [], low, high) == (Views(modules), next, low', high')
  {
    ghost var net := Views(modules);
    next, low', high' := [], low, high;
    for i := 0 to |curr|
      invariant net == Views(modules)
      invariant Round(net, curr[i..], next, low', high') == Round(old(Views(modules)), curr, [], low, high)
    {
      RoundStep(net, curr[i..], next, low', high');
      assert curr[i..][1..] == curr[i + 1..];
      var signal := curr[i];
      if signal.2 == High {
        high' := high' + 1;
      } else {
        low' := low' + 1;
      }
      var out := Deliver(modules, signal);
      if signal.1 in net {
        net := net[signal.1 := Respond(net[signal.1], (signal.0, signal.2)).0];
      } else {
        assert next + out == next;
      }
      next := next + out;
    }
    assert curr[|curr|..] == [];
  }

  // ---------------------------------------------------------------- parsing

  /** "id -> out, out": the two sides of the arrow; a line without one panics. */
  function Connection(line: string): Option<(string, string)> {
    var pieces := Split(line, " -> ");
    if |pieces| < 2 then None else Some((pieces[0], pieces[1]))
  }

  function Connections(lines: seq<string>): (r: Option<seq<(string, string)>>)
    ensures r.Some? ==> |r.value| == |lines|
  {
    if lines == [] then Some([])
    else match (Connection(lines[0]), Connections(lines[1..]))
      case (Some(c), Some(rest)) => Some([c] + rest)
      case _ => None
  }

  /** `pat` occurs in `text` (`str::contains`). */
  predicate Occurs(pat: string, text: string)
    decreases |text|
  {
    (|pat| <= |text| && text[..|pat|] == pat) || (|text| > 0 && Occurs(pat, text[1..]))
  }

  /** The inputs of a conjunction as written: the id, first character dropped, of
      every line whose output text contains the name anywhere; an empty id among them
      panics. */
  function InputsAsWritten(conns: seq<(string, string)>, name: string): (r: Option<seq<string>>)
    ensures r.None? <==> exists i :: 0 <= i < |conns| && Occurs(name, conns[i].1) && conns[i].0 == ""
    ensures r.Some? ==> |r.value| <= |conns|
    ensures r.Some? ==> forall k :: 0 <= k < |r.value| ==>
      exists i :: 0 <= i < |conns| && Occurs(name, conns[i].1) && conns[i].0 != "" && conns[i].0[1..] == r.value[k]
  {
    if conns == [] then Some([])
    else match InputsAsWritten(conns[1..], name)
      case None => None
      case Some(rest) =>
        if !Occurs(name, conns[0].1) then Some(rest)
        else if conns[0].0 == "" then None
        else Some([conns[0].0[1..]] + rest)
  }

  /** The inputs of a conjunction: the id, first character dropped, of every line that
      lists the name among its outputs; an empty id among them panics. */
  function Inputs(conns: seq<(string, string)>, name: string): (r: Option<seq<string>>)
    ensures r.None? <==> exists i :: 0 <= i < |conns| && name in Split(conns[i].1, ", ") && conns[i].0 == ""
    ensures r.Some? ==> |r.value| <= |conns|
  {
    if conns == [] then Some([])
    else match Inputs(conns[1..], name)
      case None => None
      case Some(rest) =>
        if name !in Split(conns[0].1, ", ") then Some(rest)
        else if conns[0].0 == "" then None
        else Some([conns[0].0[1..]] + rest)
  }

  /** An id is an input exactly when its line lists the name as an output. */
  lemma {:induction false} InputsExact(conns: seq<(string, string)>, name: string, id: string)
    requires Inputs(conns, name).Some?
    ensures id in Inputs(conns, name).value <==>
      exists i :: 0 <= i < |conns| && name in Split(conns[i].1, ", ") && conns[i].0 != "" && conns[i].0[1..] == id
  {
    if conns != [] {
      InputsExact(conns[1..], name, id);
      var rest := Inputs(conns[1..], name).value;
      if id in Inputs(conns, name).value && id !in rest {
        assert name in Split(conns[0].1, ", ") && conns[0].0[1..] == id;
      }
      if exists i :: 0 <= i < |conns| && name in Split(conns[i].1, ", ") && conns[i].0 != "" && conns[i].0[1..] == id {
        var i :| 0 <= i < |conns| && name in Split(conns[i].1, ", ") && conns[i].0 != "" && conns[i].0[1..] == id;
        if i > 0 {
          assert conns[1..][i - 1] == conns[i];
        }
      }
    }
  }

  /** A conjunction "ab" fed by nothing does count "%c -> abc" as an input, as
      written, since "abc" contains "ab"; listing the outputs does not. */
  lemma {:induction false} SubstringInput()
    ensures InputsAsWritten([("%c", "abc")], "ab") == Some(["c"])
    ensures Inputs([("%c", "abc")], "ab") == Some([])
  {
    var s := "abc";
    assert s[..2] == "ab";
    assert Occurs("ab", s);
    var bc := "bc";
    assert s[1..] == bc && bc[1..] == "c";
    assert s[..2] != ", " && bc[..2] != ", ";
    assert Split("c", ", ") == ["c"];
    assert ['b'] + "c" == bc;
    assert Split(bc, ", ") == [bc];
    assert ['a'] + bc == s;
    assert Split(s, ", ") == [s];
    var conns := [("%c", "abc")];
    assert conns[1..] == [];
    assert InputsAsWritten(conns[1..], "ab") == Some([]);
    assert conns[0].0[1..] == "c";
    assert ["c"] + [] == ["c"];
  }

  /** `create_module`: '%' a flip-flop, '&' a conjunction over its inputs, anything
      else a broadcast module. */
  function CreateModule(conn: (string, string), conns: seq<(string, string)>): Option<State> {
    var (idPart, outputPart) := conn;
    var outputs := Split(outputPart, ", ");
    if |idPart| > 0 && idPart[0] == '%' then Some(Initial(FlipFlop, idPart[1..], outputs, []))
    else if |idPart| > 0 && idPart[0] == '&' then
      match Inputs(conns, idPart[1..])
      case None => None
      case Some(inputs) => Some(Initial(Conjunction, idPart[1..], outputs, inputs))
    else Some(Initial(Broadcast, idPart, outputs, []))
  }

  /** The modules of the network, each under its id; a later one of the same id wins.
      Index `i` covers the first `i` lines. */
  function InitialNetwork(conns: seq<(string, string)>, i: nat): (r: Option<Network>)
    requires i <= |conns|
    ensures r.Some? ==> forall k :: k in r.value ==> r.value[k].id == k
  {
    if i == 0 then Some(map[])
    else match (InitialNetwork(conns, i - 1), CreateModule(conns[i - 1], conns))
      case (Some(net), Some(s)) => Some(net[s.id := s])
      case _ => None
  }

  /** Builds the module objects of the first `|conns|` lines. */
  method CreateModules(conns: seq<(string, string)>) returns (r: Option<map<string, Module>>)
    ensures r.None? <==> InitialNetwork(conns, |conns|).None?
    ensures r.Some? ==> Distinct(r.value) && Views(r.value) == InitialNetwork(conns, |conns|).value
    ensures r.Some? ==> forall k :: k in r.value ==> fresh(r.value[k])
  {
    var modules: map<string, Module> := map[];
    for i := 0 to |conns|
      invariant InitialNetwork(conns, i).Some?
      invariant Distinct(modules) && Views(modules) == InitialNetwork(conns, i).value
      invariant forall k :: k in modules ==> fresh(modules[k])
    {
      var s := CreateModule(conns[i], conns);
      if s.None? {
        NetworkFails(conns, i + 1, |conns|);
        return None;
      }
      var inputs := if s.value.kind == Conjunction then Inputs(conns, conns[i].0[1..]).value else [];
      var m := new Module(s.value.kind, s.value.id, s.value.outputs, inputs);
      assert m !in Objects(modules);
      AddModule(modules, s.value.id, m);
      modules := modules[s.value.id := m];
    }
    return Some(modules);
  }

  /** Adding a module object that is not yet in the map. */
  lemma {:induction false} AddModule(modules: map<string, Module>, id: string, m: Module)
    requires Distinct(modules) && m !in Objects(modules)
    ensures Distinct(modules[id := m])
    ensures Views(modules[id := m]) == Views(modules)[id := m.View()]
  {
  }

  lemma {:induction false} NetworkFails(conns: seq<(string, string)>, i: nat, j: nat)
    requires i <= j <= |conns| && InitialNetwork(conns, i).None?
    ensures InitialNetwork(conns, j).None?
    decreases j - i
  {
    if i < j {
      NetworkFails(conns, i + 1, j);
    }
  }

  /** `n` presses, the totals summed. */
  function Presses(net: Network, n: nat, fuel: nat): Option<(Network, nat, nat)> {
    if n == 0 then Some((net, 0, 0))
    else match Presses(net, n - 1, fuel)
      case None => None
      case Some((net', low, high)) =>
        match Press(net', fuel)
        case None => None
        case Some((net'', l, h)) => Some((net'', low + l, high + h))
  }

  /** Each press counts at least the button's own low pulse. */
  lemma {:induction false} PressesLow(net: Network, n: nat, fuel: nat)
    requires Presses(net, n, fuel).Some?
    ensures Presses(net, n, fuel).value.1 >= n
  {
    if n > 0 {
      PressesLow(net, n - 1, fuel);
      var (net', low, high) := Presses(net, n - 1, fuel).value;
      CascadeBroadcaster(net', fuel);
    }
  }

  lemma {:induction false} CascadeBroadcaster(net: Network, fuel: nat)
    requires Press(net, fuel).Some?
    ensures Press(net, fuel).value.1 >= 1
  {
    var (s, out) := Respond(net["broadcaster"], ("button", Low));
    CascadeKeys(net["broadcaster" := s], out, 0, 0, fuel);
  }

  /** The number of button presses of `part_one`. */
  const ButtonPresses: nat := 1000

  /** `part_one`: the product of the low and high counts over 1000 presses. */
  method PartOne(input: string, fuel: nat) returns (r: Option<nat>)
    ensures match Connections(Lines(input))
      case None => r.None?
      case Some(conns) =>
        match InitialNetwork(conns, |conns|)
        case None => r.None?
        case Some(net) =>
          match Presses(net, ButtonPresses, fuel)
          case None => r.None?
          case Some((_, low, high)) => r == Some(low * high)
  {
    var conns := Connections(Lines(input));
    if conns.None? {
      return None;
    }
    var modules := CreateModules(conns.value);
    if modules.None? {
      return None;
    }
    var counts := PressAll(modules.value, fuel);
    if counts.None? {
      return None;
    }
    var (low, high) := counts.value;
    var product: nat := low * high;
    r := Some(product);
  }

  /** The thousand button presses of `part_one`, summing the pulses of each and leaving
      the modules in the state after the last press. */
  method PressAll(modules: map<string, Module>, fuel: nat) returns (r: Option<(nat, nat)>)
    requires Distinct(modules)
    modifies Objects(modules)
    ensures match Presses(old(Views(modules)), ButtonPresses, fuel)
      case None => r.None?
      case Some((after, low, high)) => r == Some((low, high)) && Views(modules) == after
  {
    ghost var start := Views(modules);
    ghost var net := start;
    var low: nat, high: nat := 0, 0;
    for n := 0 to ButtonPresses
      invariant net == Views(modules)
      invariant Presses(start, n, fuel) == Some((net, low, high))
    {
      var totals := PressOnce(modules, fuel, start, n, net, low, high);
      if totals.None? {
        PressesFail(start, n + 1, ButtonPresses, fuel);
        return None;
      }
      net := Views(modules);
      low, high := totals.value.0, totals.value.1;
    }
    return Some((low, high));
  }

  /** One more press of the loop: the totals of the first `n` presses, extended. */
  method PressOnce(modules: map<string, Module>, fuel: nat, ghost start: Network, ghost n: nat,
                   ghost net: Network, low: nat, high: nat) returns (r: Option<(nat, nat)>)
    requires Distinct(modules) && net == Views(modules)
    requires Presses(start, n, fuel) == Some((net, low, high))
    modifies Objects(modules)
    ensures r.None? ==> Presses(start, n + 1, fuel).None?
    ensures r.Some? ==> Presses(start, n + 1, fuel) == Some((Views(modules), r.value.0, r.value.1))
  {
    var counts := Run(modules, fuel);
    PressesNext(start, n, fuel, net, low, high);
    if counts.None? {
      return None;
    }
    r := Some((low + counts.value.0, high + counts.value.1));
  }

  /** One more press extends the totals of the first `n`, or fails with it. */
  lemma {:induction false} PressesNext(net: Network, n: nat, fuel: nat, v: Network, low: nat, high: nat)
    requires Presses(net, n, fuel) == Some((v, low, high))
    ensures Press(v, fuel).None? ==> Presses(net, n + 1, fuel).None?
    ensures Press(v, fuel).Some? ==>
      Presses(net, n + 1, fuel) == Some((Press(v, fuel).value.0, low + Press(v, fuel).value.1, high + Press(v, fuel).value.2))
  {
  }

  lemma {:induction false} PressesFail(net: Network, i: nat, j: nat, fuel: nat)
    requires i <= j && Presses(net, i, fuel).None?
    ensures Presses(net, j, fuel).None?
    decreases j - i
  {
    if i < j {
      PressesFail(net, i + 1, j, fuel);
    }
  }
}
