// The editor's stand-in nodes (src/graph/fake_node.*): a `FakeNode` per
// editor node, linked to its inputs and outputs, holding parameters and, once
// baked, the engine node made for it; and the `GraphBuilder` that turns the
// collected stand-ins into an engine graph. The engine's node factory is an
// input: the set of node types it can make.
module FakeNodes {
  import opened Wrappers
  import opened Strings
  import opened Parameters
  import opened ParameterCache
  import opened MakeParam
  import opened ParamMaps

  datatype UINodeState = Normal | Error | Unconfigured

  /** A block of frames, and the set of blocks a node renders. */
  datatype FrameInterval = FrameInterval(start: Frame, end: Frame)
  datatype FrameRange = FrameRange(intervals: set<FrameInterval>)

  /** The node name: the decimal editor id, an underscore, the given name. */
  function NodeName(uiId: int, name: string): string
  {
    IntToString(uiId) + "_" + name
  }

  /** A printed id holds no underscore, so the name determines the id and
      the given name. */
  lemma NodeNameInjective(a: int, x: string, b: int, y: string)
    ensures NodeName(a, x) == NodeName(b, y) <==> a == b && x == y
  {
    if NodeName(a, x) == NodeName(b, y) {
      NoUnderscoreInId(a);
      NoUnderscoreInId(b);
      SplitAtFirst(IntToString(a), x, IntToString(b), y);
      IntToStringInjective(a, b);
    }
  }

  lemma NoUnderscoreInId(i: int)
    ensures !HasChar(IntToString(i), '_')
  {
    var n := if i < 0 then -i else i;
    NatToStringShape(n);
    var d := NatToString(n);
    assert forall k :: 0 <= k < |d| ==> d[k] != '_';
    if i < 0 {
      assert IntToString(i) == "-" + d;
    }
  }

  /** Two strings split at their first underscore split equally. */
  lemma SplitAtFirst(p: string, x: string, q: string, y: string)
    requires !HasChar(p, '_') && !HasChar(q, '_')
    requires p + "_" + x == q + "_" + y
    ensures p == q && x == y
  {
    var s := p + "_" + x;
    assert s[|p|] == '_';
    assert (q + "_" + y)[|q|] == '_';
    if |p| < |q| {
      assert false;
    } else if |q| < |p| {
      assert false;
    }
    assert p == s[..|p|] && q == s[..|q|];
    assert x == s[|p| + 1..] && y == (q + "_" + y)[|q| + 1..];
  }

  /** An engine node made by the factory, with the inputs `bake` gives it. */
  class RealNode {
    const ntype: string
    const name: string
    var inputs: seq<RealNode>

    constructor (t: string, n: string)
      ensures ntype == t && name == n && inputs == []
    {
      ntype, name := t, n;
      inputs := [];
    }
  }

  /** `vkd::make(type, name)`: a new engine node when the factory knows the
      type, null otherwise. */
  method MakeReal(t: string, n: string, known: set<string>) returns (r: Option<RealNode>)
    ensures r.Some? <==> t in known
    ensures r.Some? ==> fresh(r.value) && r.value.ntype == t && r.value.name == n && r.value.inputs == []
  {
    if t in known {
      var node := new RealNode(t, n);
      return Some(node);
    }
    return None;
  }

  /** The engine nodes a sequence of stand-ins currently points at, in order,
      skipping those without one. */
  function RealsOf(fs: seq<FakeNode>): seq<RealNode>
    reads fs
    decreases |fs|
  {
    if fs == [] then []
    else (match fs[0].realNode
          case Some(r) => [r]
          case None => []) + RealsOf(fs[1..])
  }

  class FakeNode {
    const uiId: int
    const nodeName: string
    const nodeType: string
    var state: UINodeState
    var inputs: seq<FakeNode>
    /** Held as `std::weak_ptr` in the source; they never keep a node alive. */
    var outputs: seq<FakeNode>
    var realNode: Option<RealNode>
    var paramMap: map<string, map<string, Parameter>>
    var range: FrameRange
    var savedAs: string

    /** The constructor names the node and refuses the display type, which
        throws in the source. */
    constructor (id: int, name: string, t: string)
      requires t != "display"
      ensures uiId == id && nodeName == NodeName(id, name) && nodeType == t
      ensures state == Normal && inputs == [] && outputs == [] && realNode.None?
      ensures paramMap == map[] && range == FrameRange({}) && savedAs == ""
    {
      uiId, nodeName, nodeType := id, NodeName(id, name), t;
      state := Normal;
      inputs, outputs := [], [];
      realNode := None;
      paramMap := map[];
      range := FrameRange({});
      savedAs := "";
    }

    /** `flush`: forgets this node's inputs and outputs (the lists of other
        nodes keep their entries). */
    method Flush()
      modifies this
      ensures inputs == [] && outputs == []
      ensures realNode == old(realNode) && paramMap == old(paramMap) && state == old(state)
      ensures range == old(range) && savedAs == old(savedAs)
    {
      inputs := [];
      outputs := [];
    }

    /** `add_input(n)`: `n` goes at the back of this node's inputs and this
        node at the back of `n`'s outputs. */
    method AddInput(n: FakeNode)
      modifies this, n
      ensures inputs == old(inputs) + [n]
      ensures n.outputs == old(n.outputs) + [this]
      ensures n != this ==> outputs == old(outputs) && n.inputs == old(n.inputs)
      ensures realNode == old(realNode) && n.realNode == old(n.realNode)
      ensures paramMap == old(paramMap) && n.paramMap == old(n.paramMap)
      ensures range == old(range) && n.range == old(n.range)
      ensures state == old(state) && n.state == old(n.state) && savedAs == old(savedAs) && n.savedAs == old(n.savedAs)
    {
      inputs := inputs + [n];
      n.AddOutput(this);
    }

    method AddOutput(n: FakeNode)
      modifies this
      ensures outputs == old(outputs) + [n]
      ensures inputs == old(inputs) && realNode == old(realNode) && paramMap == old(paramMap) && range == old(range)
      ensures state == old(state) && savedAs == old(savedAs)
    {
      outputs := outputs + [n];
    }

    /** `set_param(name, value)`: makes sure group "_" exists; an existing
        entry of that name is force-set to the value; otherwise the cached
        parameter of key `node_name() + "path"` is stored under the name and
        given the value. */
    method SetParam(cache: ParameterCache, t: ParameterType, st: Storage, name: string, v: Value)
      requires StorageFits(t, st) && WellTyped(t, v)
      requires name in Group(paramMap, "_") ==>
                 Group(paramMap, "_")[name].ptype == t && Group(paramMap, "_")[name].Valid()
      requires Key(t, nodeName, "path") in cache.params ==>
                 cache.params[Key(t, nodeName, "path")].ptype == t && cache.params[Key(t, nodeName, "path")].Valid()
      modifies this, cache
      modifies if name in Group(paramMap, "_") then {Group(paramMap, "_")[name]} else {}
      modifies if Key(t, nodeName, "path") in cache.params then {cache.params[Key(t, nodeName, "path")]} else {}
      ensures "_" in paramMap && paramMap.Keys == old(paramMap.Keys) + {"_"}
      ensures forall g :: g in old(paramMap) && g != "_" ==> paramMap[g] == old(paramMap[g])
      ensures name in old(Group(paramMap, "_")) ==>
                paramMap["_"] == old(paramMap["_"]) && cache.params == old(cache.params) &&
                paramMap["_"][name].value == v && paramMap["_"][name].changed
      ensures name !in old(Group(paramMap, "_")) ==>
                Key(t, nodeName, "path") in cache.params &&
                paramMap["_"] == old(Group(paramMap, "_"))[name := cache.params[Key(t, nodeName, "path")]] &&
                cache.params[Key(t, nodeName, "path")].value == v &&
                cache.params[Key(t, nodeName, "path")].ptype == t &&
                cache.params[Key(t, nodeName, "path")].Valid()
      ensures Key(t, nodeName, "path") in old(cache.params) ==> cache.params == old(cache.params)
      ensures name !in old(Group(paramMap, "_")) && Key(t, nodeName, "path") !in old(cache.params) ==>
                fresh(cache.params[Key(t, nodeName, "path")])
      ensures inputs == old(inputs) && outputs == old(outputs) && realNode == old(realNode)
      ensures range == old(range) && state == old(state) && savedAs == old(savedAs)
    {
      if "_" !in paramMap {
        paramMap := paramMap["_" := map[]];
      }
      var group := paramMap["_"];
      if name in group {
        group[name].SetForce(v);
      } else {
        AddCachedParam(cache, t, st, name, v);
      }
    }

    /** The branch of `set_param` for a new name. */
    method AddCachedParam(cache: ParameterCache, t: ParameterType, st: Storage, name: string, v: Value)
      requires StorageFits(t, st) && WellTyped(t, v) && "_" in paramMap
      requires Key(t, nodeName, "path") in cache.params ==>
                 cache.params[Key(t, nodeName, "path")].ptype == t && cache.params[Key(t, nodeName, "path")].Valid()
      modifies this, cache
      modifies if Key(t, nodeName, "path") in cache.params then {cache.params[Key(t, nodeName, "path")]} else {}
      ensures Key(t, nodeName, "path") in cache.params
      ensures paramMap == old(paramMap)["_" := old(paramMap["_"])[name := cache.params[Key(t, nodeName, "path")]]]
      ensures cache.params[Key(t, nodeName, "path")].value == v
      ensures cache.params[Key(t, nodeName, "path")].ptype == t && cache.params[Key(t, nodeName, "path")].Valid()
      ensures Key(t, nodeName, "path") in old(cache.params) ==> cache.params == old(cache.params)
      ensures Key(t, nodeName, "path") !in old(cache.params) ==> fresh(cache.params[Key(t, nodeName, "path")])
      ensures inputs == old(inputs) && outputs == old(outputs) && realNode == old(realNode)
      ensures range == old(range) && state == old(state) && savedAs == old(savedAs)
    {
      var p := MakeCached(cache, t, st, nodeName, "path", 0, {});
      paramMap := paramMap["_" := paramMap["_"][name := p]];
      p.SetForce(v);
    }

    /** `params()[group][name] = p`: creates the group if missing and
        sets the entry, replacing an earlier one. */
    method PutParam(group: string, name: string, p: Parameter)
      modifies this
      ensures paramMap == old(paramMap)[group := Group(old(paramMap), group)[name := p]]
      ensures inputs == old(inputs) && outputs == old(outputs) && realNode == old(realNode)
      ensures range == old(range) && state == old(state) && savedAs == old(savedAs)
    {
      paramMap := paramMap[group := Group(paramMap, group)[name := p]];
    }

    method SetState(s: UINodeState)
      modifies this
      ensures state == s
      ensures inputs == old(inputs) && outputs == old(outputs) && paramMap == old(paramMap)
      ensures realNode == old(realNode) && range == old(range) && savedAs == old(savedAs)
    {
      state := s;
    }

    method SetRange(r: FrameRange)
      modifies this
      ensures range == r
      ensures inputs == old(inputs) && outputs == old(outputs) && paramMap == old(paramMap)
      ensures realNode == old(realNode) && state == old(state) && savedAs == old(savedAs)
    {
      range := r;
    }

    method SetSavedAs(s: string)
      modifies this
      ensures savedAs == s
      ensures inputs == old(inputs) && outputs == old(outputs) && paramMap == old(paramMap)
      ensures realNode == old(realNode) && state == old(state) && range == old(range)
    {
      savedAs := s;
    }

    /** `set_params`: replaces the whole parameter map. */
    method SetParams(m: map<string, map<string, Parameter>>)
      modifies this
      ensures paramMap == m
      ensures inputs == old(inputs) && outputs == old(outputs) && realNode == old(realNode)
      ensures range == old(range) && state == old(state) && savedAs == old(savedAs)
    {
      paramMap := m;
    }
  }

  /** `FakeNode(id, name, type)` as a call that can fail: the display type
      throws. */
  method NewFakeNode(id: int, name: string, t: string) returns (r: Result<FakeNode>)
    ensures r.Err? <==> t == "display"
    ensures r.Ok? ==> fresh(r.value) && r.value.nodeName == NodeName(id, name) && r.value.nodeType == t
  {
    if t == "display" {
      return Err("display node had fakenode created.");
    }
    var n := new FakeNode(id, name, t);
    return Ok(n);
  }

  /** Two new names on one node share one parameter object, because the
      cache key is built from the literal name "path": the second value
      overwrites the first. */
  method SetParamShares(n: FakeNode, cache: ParameterCache, t: ParameterType, st: Storage,
                        a: string, b: string, va: Value, vb: Value)
    requires StorageFits(t, st) && WellTyped(t, va) && WellTyped(t, vb)
    requires a != b && a !in Group(n.paramMap, "_") && b !in Group(n.paramMap, "_")
    requires Key(t, n.nodeName, "path") !in cache.params
    modifies n, cache
    ensures "_" in n.paramMap && a in n.paramMap["_"] && b in n.paramMap["_"]
    ensures n.paramMap["_"][a] == n.paramMap["_"][b]
    ensures n.paramMap["_"][a].value == vb
  {
    n.SetParam(cache, t, st, a, va);
    n.SetParam(cache, t, st, b, vb);
  }

  /** The engine graph `bake` builds: its nodes and its terminals. */
  class Graph {
    var nodes: seq<RealNode>
    var terminals: seq<RealNode>

    constructor ()
      ensures nodes == [] && terminals == []
    {
      nodes, terminals := [], [];
    }

    method Add(r: RealNode)
      modifies this
      ensures nodes == old(nodes) + [r] && terminals == old(terminals)
    {
      nodes := nodes + [r];
    }

    method AddTerminal(r: RealNode)
      modifies this
      ensures terminals == old(terminals) + [r] && nodes == old(nodes)
    {
      terminals := terminals + [r];
    }
  }

  /** The engine nodes that were made, in order. */
  function Made(made: seq<Option<RealNode>>): seq<RealNode>
  {
    if made == [] then []
    else (if made[0].Some? then [made[0].value] else []) + Made(made[1..])
  }

  lemma MadeAppend(made: seq<Option<RealNode>>, m: Option<RealNode>)
    ensures Made(made + [m]) == Made(made) + (if m.Some? then [m.value] else [])
    decreases |made|
  {
    if made == [] {
      assert made + [m] == [m];
    } else {
      assert (made + [m])[1..] == made[1..] + [m];
      MadeAppend(made[1..], m);
    }
  }

  /** One step of `bake`: when the factory makes a node for `f`, the node
      becomes `f`'s engine node, takes as inputs the engine nodes of `f`'s
      inputs (in order, skipping inputs without one), joins the graph, and is
      a terminal exactly when `f` has no outputs. */
  method BakeOne(f: FakeNode, g: Graph, known: set<string>) returns (made: Option<RealNode>)
    modifies f, g
    ensures made.Some? <==> f.nodeType in known
    ensures made.Some? ==>
              fresh(made.value) && made.value.ntype == f.nodeType && made.value.name == f.nodeName &&
              f.realNode == made && made.value.inputs == old(RealsOf(f.inputs)) &&
              g.nodes == old(g.nodes) + [made.value] &&
              g.terminals == old(g.terminals) + (if |f.outputs| == 0 then [made.value] else [])
    ensures made.None? ==> f.realNode == old(f.realNode) && g.nodes == old(g.nodes) && g.terminals == old(g.terminals)
    ensures f.inputs == old(f.inputs) && f.outputs == old(f.outputs) && f.paramMap == old(f.paramMap)
  {
    made := MakeReal(f.nodeType, f.nodeName, known);
    if made.Some? {
      var r := made.value;
      var ins := RealsOf(f.inputs);
      f.realNode := made;
      r.inputs := ins;
      g.Add(r);
      if |f.outputs| == 0 {
        g.AddTerminal(r);
      }
    }
  }

  /** Entry `j` of `made` is an engine node exactly when the factory knows
      the type of stand-in `j`, and then has its type and name. */
  predicate MadeFor(fs: seq<FakeNode>, made: seq<Option<RealNode>>, known: set<string>)
  {
    |made| <= |fs| &&
    forall j :: 0 <= j < |made| ==>
      (made[j].Some? <==> fs[j].nodeType in known) &&
      (made[j].Some? ==> made[j].value.ntype == fs[j].nodeType && made[j].value.name == fs[j].nodeName)
  }

  lemma MadeForAppend(fs: seq<FakeNode>, made: seq<Option<RealNode>>, known: set<string>, m: Option<RealNode>)
    requires MadeFor(fs, made, known) && |made| < |fs|
    requires m.Some? <==> fs[|made|].nodeType in known
    requires m.Some? ==> m.value.ntype == fs[|made|].nodeType && m.value.name == fs[|made|].nodeName
    ensures MadeFor(fs, made + [m], known)
  {
    assert forall j :: 0 <= j < |made| ==> (made + [m])[j] == made[j];
  }

  /** A made engine node is among `ts` exactly when its stand-in had no
      outputs (`lens` holds the output counts). */
  predicate TerminalFor(made: seq<Option<RealNode>>, lens: seq<int>, ts: seq<RealNode>)
  {
    |made| <= |lens| &&
    forall j :: 0 <= j < |made| && made[j].Some? ==> (made[j].value in ts <==> lens[j] == 0)
  }

  lemma TerminalForAppend(made: seq<Option<RealNode>>, lens: seq<int>, ts: seq<RealNode>, m: Option<RealNode>, ts': seq<RealNode>)
    requires TerminalFor(made, lens, ts) && |made| < |lens|
    requires m.Some? ==> m.value !in ts && forall j :: 0 <= j < |made| && made[j].Some? ==> made[j].value != m.value
    requires ts' == if m.Some? && lens[|made|] == 0 then ts + [m.value] else ts
    ensures TerminalFor(made + [m], lens, ts')
  {
    assert forall j :: 0 <= j < |made| ==> (made + [m])[j] == made[j];
  }

  /** The output counts of the stand-ins. */
  function OutputCounts(fs: seq<FakeNode>): (r: seq<int>)
    reads set i | 0 <= i < |fs| :: fs[i]
    ensures |r| == |fs| && forall j :: 0 <= j < |fs| ==> r[j] == |fs[j].outputs|
  {
    if fs == [] then []
    else
      assert forall j :: 1 <= j < |fs| ==> fs[j] == fs[1..][j - 1];
      [|fs[0].outputs|] + OutputCounts(fs[1..])
  }

  /** The loop of `bake` over the stand-ins `fs`, in order. */
  method BakeAll(fs: seq<FakeNode>, known: set<string>) returns (g: Graph, ghost made: seq<Option<RealNode>>)
    modifies set i | 0 <= i < |fs| :: fs[i]
    ensures fresh(g) && |made| == |fs|
    ensures forall i :: 0 <= i < |fs| ==> (made[i].Some? <==> fs[i].nodeType in known)
    ensures forall i :: 0 <= i < |fs| && made[i].Some? ==>
              fresh(made[i].value) && made[i].value.ntype == fs[i].nodeType && made[i].value.name == fs[i].nodeName
    ensures g.nodes == Made(made)
    ensures forall i :: 0 <= i < |fs| && made[i].Some? ==>
              (made[i].value in g.terminals <==> |fs[i].outputs| == 0)
    ensures forall r :: r in g.terminals ==> r in g.nodes
    ensures forall i :: 0 <= i < |fs| ==> fs[i].inputs == old(fs[i].inputs) && fs[i].outputs == old(fs[i].outputs)
  {
    ghost var lens := OutputCounts(fs);
    g := new Graph();
    made := [];
    var i := 0;
    while i < |fs|
      invariant 0 <= i <= |fs| && |made| == i
      invariant fresh(g)
      invariant forall j :: 0 <= j < |fs| ==> fs[j].inputs == old(fs[j].inputs) && fs[j].outputs == old(fs[j].outputs)
      invariant MadeFor(fs, made, known)
      invariant forall j :: 0 <= j < i && made[j].Some? ==> fresh(made[j].value)
      invariant g.nodes == Made(made)
      invariant TerminalFor(made, lens, g.terminals)
      invariant forall r :: r in g.terminals ==> r in g.nodes
    {
      ghost var ts := g.terminals;
      var m := BakeOne(fs[i], g, known);
      MadeAppend(made, m);
      MadeForAppend(fs, made, known, m);
      TerminalForAppend(made, lens, ts, m, g.terminals);
      made := made + [m];
      i := i + 1;
    }
  }

  class GraphBuilder {
    var nodes: seq<FakeNode>

    constructor ()
      ensures nodes == []
    {
      nodes := [];
    }

    /** `add`: appends the node, keeping the order of earlier ones. */
    method Add(n: FakeNode)
      modifies this
      ensures nodes == old(nodes) + [n]
    {
      nodes := nodes + [n];
    }

    /** `bake`: one step per node in order. A node gets an engine node exactly
        when the factory knows its type; the graph holds the made nodes in
        order, and a made node is a terminal exactly when its stand-in has no
        outputs. Inputs and outputs of the stand-ins are left alone. */
    method Bake(known: set<string>) returns (g: Graph, ghost made: seq<Option<RealNode>>)
      modifies set i | 0 <= i < |nodes| :: nodes[i]
      ensures fresh(g) && |made| == |nodes|
      ensures forall i :: 0 <= i < |nodes| ==> (made[i].Some? <==> nodes[i].nodeType in known)
      ensures forall i :: 0 <= i < |nodes| && made[i].Some? ==>
                fresh(made[i].value) && made[i].value.ntype == nodes[i].nodeType && made[i].value.name == nodes[i].nodeName
      ensures g.nodes == Made(made)
      ensures forall i :: 0 <= i < |nodes| && made[i].Some? ==>
                (made[i].value in g.terminals <==> |nodes[i].outputs| == 0)
      ensures forall r :: r in g.terminals ==> r in g.nodes
      ensures forall i :: 0 <= i < |nodes| ==> nodes[i].inputs == old(nodes[i].inputs) && nodes[i].outputs == old(nodes[i].outputs)
    {
      g, made := BakeAll(nodes, known);
    }
  }
}
