// The node editor window (src/ui/node_window.cpp) as an object whose maps
// and counters its methods update in place, step by step as the source
// does. Each method is proved to leave the state `NodeGraph` computes for
// it, so the invariant and the other properties proved there carry over.
// imnodes selection, hovering and mouse state become parameters; the
// counters, static in the source and shared by every window, are fields.
module NodeWindows {
  import opened Wrappers
  import opened Strings
  import opened Parameters
  import opened NodeGraph
  import opened FakeNodes
  import EngineNodes
  import Paths
  import NodeLoad
  import InitialInputs

  /** The elements of a sequence. */
  function Elems(s: seq<int>): set<int>
  {
    set x | x in s
  }

  lemma ElemsSnoc(s: seq<int>, i: int)
    requires 0 <= i < |s|
    ensures Elems(s[..i + 1]) == Elems(s[..i]) + {s[i]}
  {
    assert s[..i + 1] == s[..i] + [s[i]];
  }

  lemma ElemsSorted(s: set<int>)
    ensures Elems(Sorted(s)) == s
  {
  }

  lemma MinusBoth(m: map<int, int>, a: set<int>, b: set<int>)
    ensures m - a - b == m - (a + b)
  {
  }

  /** Removing the links of `s + [x]` is removing those of `s`, then `x`. */
  lemma {:induction false} RemoveLinksSnoc(g: Editor, s: seq<int>, x: int)
    ensures RemoveLinks(g, s + [x]) == RemoveLink(RemoveLinks(g, s), x)
    decreases |s|
  {
    if s == [] {
      assert [x][1..] == [];
    } else {
      assert (s + [x])[1..] == s[1..] + [x];
      RemoveLinksSnoc(RemoveLink(g, s[0]), s[1..], x);
    }
  }

  /** The first element of an ascending sequence outside `used`, when every
      earlier one is in it, is the least such element. */
  lemma FirstUnused(n: Node, outs: seq<int>, i: int)
    requires outs == Sorted(n.outputs) && 0 <= i < |outs|
    requires outs[i] !in n.outPinToLinks
    requires forall j :: 0 <= j < i ==> outs[j] in n.outPinToLinks
    ensures UnusedOutputs(n) != {} && outs[i] == SetMin(UnusedOutputs(n))
  {
    assert outs[i] in UnusedOutputs(n);
    var m := SetMin(UnusedOutputs(n));
    assert m in outs;
    var j :| 0 <= j < |outs| && outs[j] == m;
    if j != i {
      assert false;
    }
  }

  /** The search `_add_node` makes over the outputs of the selected node,
      in ascending order, for the first one without an entry in its
      `outPinToLinks`. */
  method FirstUnusedOutput(sn: Node) returns (src: Option<int>)
    ensures src == if UnusedOutputs(sn) == {} then None else Some(SetMin(UnusedOutputs(sn)))
  {
    var outs := Sorted(sn.outputs);
    var i := FirstMissing(outs, sn.outPinToLinks);
    FirstUnusedAt(sn, outs, i);
    src := if i < |outs| then Some(outs[i]) else None;
  }

  /** The scan itself: the position of the first element of `outs` with no
      entry in `used`, or `|outs|` when every one has an entry. */
  method FirstMissing(outs: seq<int>, used: map<int, set<int>>) returns (i: int)
    ensures 0 <= i <= |outs|
    ensures forall j :: 0 <= j < i ==> outs[j] in used
    ensures i < |outs| ==> outs[i] !in used
  {
    i := 0;
    while i < |outs| && outs[i] in used
      invariant 0 <= i <= |outs|
      invariant forall j :: 0 <= j < i ==> outs[j] in used
    {
      i := i + 1;
    }
  }

  /** Where the ascending search stops decides the result: at an unused
      output, the least one; past the end, there is none. */
  lemma FirstUnusedAt(n: Node, outs: seq<int>, i: int)
    requires outs == Sorted(n.outputs) && 0 <= i <= |outs|
    requires forall j :: 0 <= j < i ==> outs[j] in n.outPinToLinks
    requires i < |outs| ==> outs[i] !in n.outPinToLinks
    ensures (if UnusedOutputs(n) == {} then None else Some(SetMin(UnusedOutputs(n)))) ==
            (if i < |outs| then Some(outs[i]) else None)
  {
    if i < |outs| { FirstUnused(n, outs, i); } else { AllUsed(n, outs); }
  }

  /** When every output in ascending order has an entry, none is unused. */
  lemma AllUsed(n: Node, outs: seq<int>)
    requires outs == Sorted(n.outputs)
    requires forall j :: 0 <= j < |outs| ==> outs[j] in n.outPinToLinks
    ensures UnusedOutputs(n) == {}
  {
    forall o | o in n.outputs ensures o in n.outPinToLinks {
      var j :| 0 <= j < |outs| && outs[j] == o;
    }
  }

  /** The counter loops at the end of `load`: the counter `c` raised past
      every id in `ks`, visited in ascending order. */
  method AdvancePast(c: int, ks: set<int>) returns (r: int)
    ensures r == NodeLoad.Past(c, ks)
  {
    r := c;
    var rest := ks;
    ghost var done := {};
    while rest != {}
      invariant done + rest == ks
      invariant r == NodeLoad.Past(c, done)
      decreases rest
    {
      var k := SetMin(rest);
      NodeLoad.PastAdd(c, done, k);
      r := if r < k + 1 then k + 1 else r;
      rest, done := rest - {k}, done + {k};
    }
  }

  /** The node loop of `load`: in id order, the node counter is raised
      past each id, every node but the display node gets a fresh stand-in
      named after it with its saved parameters, and any node asking for a
      rebuild is noted. */
  method StandIns(n0: map<int, Node>, c0: int, saveMap: NodeLoad.SaveMap)
    returns (ns: map<int, Node>, c: int, rebuild: bool)
    ensures ns == NodeLoad.WithFakes(n0, NodeLoad.FakesOf(ns))
    ensures c == NodeLoad.Past(c0, n0.Keys)
    ensures rebuild == NodeLoad.NeedsRebuild(n0)
    ensures NodeLoad.StandInsGiven(n0, NodeLoad.FakesOf(ns), saveMap) && NodeLoad.NamedAll(n0, NodeLoad.FakesOf(ns))
    ensures forall k :: k in n0 && n0[k].ntype != "display" ==> k in ns && ns[k].fake.Some? && fresh(ns[k].fake.value)
  {
    var fakes: map<int, Option<FakeNode>> := map[];
    c := c0;
    var rest := n0.Keys;
    ghost var done := {};
    NodeLoad.RebuildAmongEnds(n0);
    rebuild := false;
    while rest != {}
      invariant done + rest == n0.Keys && fakes.Keys == done
      invariant c == NodeLoad.Past(c0, done)
      invariant rebuild == NodeLoad.RebuildAmong(n0, done)
      invariant NodeLoad.NamedAll(n0, fakes)
      invariant forall j :: j in fakes && j in n0 && n0[j].ntype != "display" && fakes[j].Some? ==>
                  fresh(fakes[j].value) && fakes[j].value.paramMap == NodeLoad.Saved(saveMap, j)
      decreases rest
    {
      var k := SetMin(rest);
      var n := n0[k];
      var f := StandInFor(k, n, saveMap);
      NodeLoad.StandInsStep(n0, c0, done, rest, fakes, c, rebuild, k, f);
      NodeLoad.NamedAllAdd(n0, fakes, k, f);
      c := if c < k + 1 then k + 1 else c;
      fakes := fakes[k := f];
      rebuild := rebuild || n.rebuildLinks;
      rest, done := rest - {k}, done + {k};
    }
    NodeLoad.WithFakesAll(n0, fakes);
    NodeLoad.StandInsAll(n0, fakes, saveMap);
    ns := NodeLoad.WithFakes(n0, fakes);
  }

  /** The stand-in `load` gives node `k`, read as `n`: none is made for
      the display node; any other node gets a new one, given the
      parameters saved for it. */
  method StandInFor(k: int, n: Node, saveMap: NodeLoad.SaveMap) returns (f: Option<FakeNode>)
    ensures NodeLoad.StandIn(k, n, f, saveMap)
    ensures n.ntype != "display" ==> f.Some? && fresh(f.value)
  {
    if n.ntype == "display" {
      return n.fake;
    }
    var made := new FakeNode(k, n.displayName, n.ntype);
    if k in saveMap {
      made.SetParams(saveMap[k]);
    }
    f := Some(made);
  }

  /** The window's own data besides the graph: its id, its title, the name
      id it was opened with, and its sequencer line's name and blocks. */
  datatype WindowMeta = WindowMeta(id: int, windowName: string, nameId: string,
                                   sequencerName: string, blocks: seq<FrameInterval>)

  class NodeWindow {
    var nextNode: int
    var nextPin: int
    var nextLink: int
    var nodes: map<int, Node>
    var pinToNode: map<int, int>
    var links: map<int, NodeGraph.Link>
    var displayNode: int
    var lastOutput: int
    var id: int
    var windowName: string
    var nameId: string
    /** The window's sequencer line: its name and its blocks of frames. */
    var sequencerName: string
    var blocks: seq<FrameInterval>

    /** The graph state the editor operations work on. */
    function State(): Editor
      reads this
    {
      Editor(nextNode, nextPin, nextLink, nodes, pinToNode, links, displayNode, lastOutput)
    }

    function Meta(): WindowMeta
      reads this
    {
      WindowMeta(id, windowName, nameId, sequencerName, blocks)
    }

    /** `NodeWindow(id, name_id)`: the window named after the name id, or
        the number when there is none, with a display node added. The
        counters are the shared ones at construction time. */
    constructor (winId: int, nid: string, node0: int, pin0: int, link0: int)
      ensures id == winId && nameId == nid
      ensures windowName == "node window " + (if |nid| > 0 then "(" + nid + ")" else IntToString(winId))
      ensures sequencerName == "empty" && blocks == []
      ensures State() == NodeGraph.AddNode(Editor(node0, pin0, link0, map[], map[], map[], -1, -1),
                                           "display", map[], None, None).(displayNode := node0)
    {
      nextNode, nextPin, nextLink := node0, pin0, link0;
      nodes, pinToNode, links := map[], map[], map[];
      displayNode, lastOutput := -1, -1;
      windowName := "node window ";
      id, nameId := winId, nid;
      sequencerName, blocks := "", [];
      new;
      var d, made := AddNode("display", map[], None);
      displayNode := d;
      sequencerName := "empty";
      if |nid| > 0 {
        windowName := windowName + "(" + nid + ")";
      } else {
        windowName := windowName + IntToString(winId);
      }
    }

    /** `next_pin_`: hands out the pin counter and advances it. */
    method NextPin() returns (pin: int)
      modifies this
      ensures pin == old(nextPin) && State() == old(State()).(nextPin := pin + 1)
      ensures Meta() == old(Meta())
    {
      pin := nextPin;
      nextPin := nextPin + 1;
    }

    /** `_pins(count)`: `count` fresh pins, each owned by the next node id. */
    method Pins(count: int) returns (puts: set<int>)
      modifies this
      ensures State() == AddPins(old(State()), count)
      ensures puts == Range(old(nextPin), nextPin)
      ensures Meta() == old(Meta())
    {
      ghost var g := State();
      puts := {};
      var i := 0;
      while i < count
        invariant 0 <= i && (count < 0 ==> i == 0) && (0 <= count ==> i <= count)
        invariant State() == AddPins(g, i) && puts == Range(g.nextPin, nextPin)
        invariant Meta() == old(Meta())
      {
        var np := NextPin();
        puts := puts + {np};
        pinToNode := pinToNode[np := nextNode];
        i := i + 1;
      }
    }

    /** `_remove_link(link)`. */
    method RemoveLink(link: int)
      modifies this
      ensures State() == NodeGraph.RemoveLink(old(State()), link)
      ensures Meta() == old(Meta())
    {
      ghost var g := State();
      if link in links {
        var l := links[link];
        if l.start in pinToNode && pinToNode[l.start] in nodes {
          var k := pinToNode[l.start];
          nodes := nodes[k := DetachStart(nodes[k], link, l.start)];
        }
        assert State() == UnlinkStart(g, link, l.start);
        if l.end in pinToNode && pinToNode[l.end] in nodes {
          var k := pinToNode[l.end];
          nodes := nodes[k := DetachEnd(nodes[k], link, l.end)];
        }
        assert State() == UnlinkEnd(UnlinkStart(g, link, l.start), link, l.end);
      }
      links := links - {link};
    }

    /** The start side of `_add_link`. */
    method LinkStartAt(lid: int, start: int)
      modifies this
      ensures State() == LinkStart(old(State()), lid, start)
      ensures Meta() == old(Meta())
    {
      if start in pinToNode && pinToNode[start] in nodes {
        var k := pinToNode[start];
        nodes := nodes[k := AttachStart(nodes[k], lid, start)];
      }
    }

    /** An extendable node with every input linked grows one input. */
    method ExtendAt(k: int)
      requires k in nodes
      modifies this
      ensures State() == Extend(old(State()), k)
      ensures Meta() == old(Meta())
    {
      if nodes[k].extendable && |nodes[k].inPinToLink| == |nodes[k].inputs| {
        var np := NextPin();
        nodes := nodes[k := nodes[k].(inputs := nodes[k].inputs + {np})];
        pinToNode := pinToNode[np := k];
      }
    }

    /** The end side of `_add_link`. */
    method LinkEndAt(lid: int, end: int)
      modifies this
      ensures State() == LinkEnd(old(State()), lid, end)
      ensures Meta() == old(Meta())
    {
      if end in pinToNode && pinToNode[end] in nodes {
        var k := pinToNode[end];
        if end in nodes[k].inPinToLink {
          RemoveLink(nodes[k].inPinToLink[end]);
        }
        nodes := nodes[k := AttachEnd(nodes[k], lid, end)];
        ExtendAt(k);
      }
    }

    /** `_add_link(start, end)`: returns the id the link was stored under. */
    method AddLink(start: int, end: int) returns (ret: int)
      modifies this
      ensures ret == old(nextLink)
      ensures State() == NodeGraph.AddLink(old(State()), start, end)
      ensures Meta() == old(Meta())
    {
      if nextLink !in links {
        links := links[nextLink := NodeGraph.Link(start, end)];
      }
      LinkStartAt(nextLink, start);
      LinkEndAt(nextLink, end);
      ret := nextLink;
      nextLink := nextLink + 1;
    }

    /** The pins and the stand-in of the node `_add_node(t)` builds. */
    method NewNodeAt(t: string, registry: map<string, EngineNodes.NodeData>)
      returns (node: Node, made: Option<FakeNode>)
      requires "display" !in registry
      modifies this
      ensures (State(), node) == NewNode(old(State()), t, registry, made)
      ensures made.Some? <==> t in registry
      ensures made.Some? ==> fresh(made.value) && made.value.nodeType == t &&
                             made.value.nodeName == NodeName(old(nextNode), registry[t].displayName) &&
                             made.value.inputs == [] && made.value.outputs == [] && made.value.paramMap == map[]
      ensures Meta() == old(Meta())
    {
      node := EmptyNode(t);
      made := None;
      if t in registry {
        var d := registry[t];
        node := node.(extendable := false, ntype := d.ntype, displayName := d.displayName);
        var ins;
        if d.inputs == -1 {
          ins := Pins(1);
          node := node.(inputs := ins, extendable := true);
        } else {
          ins := Pins(d.inputs);
          node := node.(inputs := ins);
        }
        var outs := Pins(d.outputs);
        node := node.(outputs := outs);
        var f := new FakeNode(nextNode, node.displayName, t);
        made := Some(f);
        node := node.(fake := made);
      } else if t == "display" {
        var ins := Pins(1);
        node := node.(inputs := ins, extendable := true);
      }
    }

    /** Linking the emplaced node `node` into its first input: from the
        first output of the selected node without a link, else from the last
        added output. The search skips a new node without inputs. */
    method LinkNewAt(node: Node, selected: Option<int>)
      modifies this
      ensures State() == LinkNew(old(State()), node, selected)
      ensures Meta() == old(Meta())
    {
      var src: Option<int> := None;
      if selected.Some? && selected.value in nodes && node.inputs != {} {
        src := FirstUnusedOutput(nodes[selected.value]);
      }
      if src.None? && lastOutput != -1 && |node.inputs| > 0 {
        src := Some(lastOutput);
      }
      assert src == LinkSource(State(), node, selected);
      if src.Some? {
        var _ := AddLink(src.value, SetMin(node.inputs));
      }
    }

    /** `_add_node(type)` with the editor's selection: returns the new
        node's id, and the stand-in node made for a registered type. The
        registry never holds the display type, whose stand-in would throw. */
    method AddNode(t: string, registry: map<string, EngineNodes.NodeData>, selected: Option<int>)
      returns (ret: int, made: Option<FakeNode>)
      requires "display" !in registry
      modifies this
      ensures ret == old(nextNode)
      ensures State() == NodeGraph.AddNode(old(State()), t, registry, selected, made)
      ensures made.Some? <==> t in registry
      ensures made.Some? ==> fresh(made.value) && made.value.nodeType == t &&
                             made.value.nodeName == NodeName(ret, registry[t].displayName) &&
                             made.value.inputs == [] && made.value.outputs == [] && made.value.paramMap == map[]
      ensures Meta() == old(Meta())
    {
      ghost var g := State();
      var node;
      node, made := NewNodeAt(t, registry);
      ret := nextNode;
      EmplaceAt(node);
      assert State() == Emplaced(g, t, registry, made);
      LinkNewAt(node, selected);
      FinishAdd(node);
      AddNodeSteps(g, t, registry, selected, made, node);
    }

    /** Emplacing the new node under the node counter. */
    method EmplaceAt(node: Node)
      modifies this
      ensures State() == old(State()).(nodes := if old(nextNode) in old(nodes) then old(nodes)
                                                else old(nodes)[old(nextNode) := node])
      ensures Meta() == old(Meta())
    {
      if nextNode !in nodes {
        nodes := nodes[nextNode := node];
      }
    }

    /** The new node's first output becomes the last added output, and the
        node counter advances. */
    method FinishAdd(node: Node)
      modifies this
      ensures State() == old(State()).(lastOutput := if node.outputs == {} then -1 else SetMin(node.outputs),
                                       nextNode := old(nextNode) + 1)
      ensures Meta() == old(Meta())
    {
      if |node.outputs| > 0 {
        lastOutput := SetMin(node.outputs);
      } else {
        lastOutput := -1;
      }
      nextNode := nextNode + 1;
    }

    /** `_remove_link` on each id of `ids` in turn. */
    method RemoveLinksAt(ids: seq<int>)
      modifies this
      ensures State() == RemoveLinks(old(State()), ids)
      ensures Meta() == old(Meta())
    {
      ghost var g := State();
      var i := 0;
      while i < |ids|
        invariant 0 <= i <= |ids|
        invariant State() == RemoveLinks(g, ids[..i])
        invariant Meta() == old(Meta())
      {
        RemoveLinksSnoc(g, ids[..i], ids[i]);
        assert ids[..i + 1] == ids[..i] + [ids[i]];
        RemoveLink(ids[i]);
        i := i + 1;
      }
      assert ids[..i] == ids;
    }

    /** Erasing input pins from the owners, one at a time. */
    method ForgetInputs(ins: seq<int>)
      modifies this
      ensures State() == old(State()).(pinToNode := old(pinToNode) - Elems(ins))
      ensures Meta() == old(Meta())
    {
      var i := 0;
      while i < |ins|
        invariant 0 <= i <= |ins|
        invariant State() == old(State()).(pinToNode := pinToNode)
        invariant pinToNode == old(pinToNode) - Elems(ins[..i])
        invariant Meta() == old(Meta())
      {
        ElemsSnoc(ins, i);
        pinToNode := pinToNode - {ins[i]};
        i := i + 1;
      }
      assert ins[..i] == ins;
    }

    /** Erasing output pins from the owners, one at a time, resetting the
        last added output when it is one of them. */
    method ForgetOutputs(outs: seq<int>)
      modifies this
      ensures State() == old(State()).(pinToNode := old(pinToNode) - Elems(outs),
                                       lastOutput := if old(lastOutput) in Elems(outs) then -1 else old(lastOutput))
      ensures Meta() == old(Meta())
    {
      var i := 0;
      while i < |outs|
        invariant 0 <= i <= |outs|
        invariant State() == old(State()).(pinToNode := pinToNode, lastOutput := lastOutput)
        invariant pinToNode == old(pinToNode) - Elems(outs[..i])
        invariant lastOutput == if old(lastOutput) in Elems(outs[..i]) then -1 else old(lastOutput)
        invariant Meta() == old(Meta())
      {
        ElemsSnoc(outs, i);
        if lastOutput == outs[i] {
          lastOutput := -1;
        }
        pinToNode := pinToNode - {outs[i]};
        i := i + 1;
      }
      assert outs[..i] == outs;
    }

    /** The input pins of node `k`, then each output (resetting the last
        added output when it is that pin), are erased from the owners; then
        the node. */
    method ErasePinsAt(k: int)
      requires k in nodes
      modifies this
      ensures State() == ErasePins(old(State()), k)
      ensures Meta() == old(Meta())
    {
      ghost var g1 := State();
      var n := nodes[k];
      var ins := Sorted(n.inputs);
      ForgetInputs(ins);
      var outs := Sorted(n.outputs);
      ForgetOutputs(outs);
      ElemsSorted(n.inputs);
      ElemsSorted(n.outputs);
      MinusBoth(g1.pinToNode, n.inputs, n.outputs);
      nodes := nodes - {k};
    }

    /** Deleting the hovered node `k` in `draw` when the delete click
        arrives: nothing for the display node or an unknown id; otherwise its
        links are removed from a copy of its index, then its pins and the
        node are erased. */
    method DeleteNode(k: int)
      modifies this
      ensures State() == NodeGraph.DeleteNode(old(State()), k)
      ensures Meta() == old(Meta())
    {
      if k == displayNode || k !in nodes {
        return;
      }
      var copy := Sorted(nodes[k].linkToPin.Keys);
      RemoveLinksAt(copy);
      ErasePinsAt(k);
    }
    /** `initial_input(entry)` for the file at `path`: an extension with no
        reader changes nothing; otherwise the reader's node is added and its
        first output linked to the display node's last input, and the
        sequencer line is named after the path. */
    method InitialInput(path: string, registry: map<string, EngineNodes.NodeData>, selected: Option<int>)
      returns (made: Option<FakeNode>)
      requires "display" !in registry
      modifies this
      ensures var t := InitialInputs.InputType(Paths.Extension(Paths.FileName(path)));
        if t.None? then State() == old(State()) && Meta() == old(Meta()) && made.None?
        else State() == InitialInputs.InitialInputGraph(old(State()), t.value, registry, selected, made) &&
             Meta() == old(Meta()).(sequencerName := path) &&
             (made.Some? <==> t.value in registry) &&
             (made.Some? ==> fresh(made.value) && made.value.nodeType == t.value)
    {
      var t := InitialInputs.InputType(Paths.Extension(Paths.FileName(path)));
      if t.None? {
        made := None;
        return;
      }
      ghost var g := State();
      var node;
      node, made := AddNode(t.value, registry, selected);
      ghost var g1 := State();
      if node in nodes && |nodes[node].outputs| > 0 && displayNode in nodes && |nodes[displayNode].inputs| > 0 {
        var _ := AddLink(SetMin(nodes[node].outputs), SetMax(nodes[displayNode].inputs));
      }
      assert State() == InitialInputs.InitialInputGraph(g, t.value, registry, selected, made);
      sequencerName := path;
    }

    /** `load(archive, version)`: any version but 0 is refused and changes
        nothing. Otherwise the graph data read replaces the window's graph,
        its id and its title; every node but the display node gets a fresh
        stand-in with its saved parameters; the indexes are rebuilt when a
        node asks for it; and the counters are raised past every id in use. */
    method Load(version: int, data: NodeLoad.GraphData, registry: map<string, EngineNodes.NodeData>)
      returns (ok: bool)
      modifies this
      ensures ok <==> version == 0
      ensures !ok ==> State() == old(State()) && Meta() == old(Meta())
      ensures ok ==> State() == NodeLoad.Loaded(data, registry, NodeLoad.FakesOf(nodes))
      ensures ok ==> Meta() == old(Meta()).(id := data.id, windowName := data.windowName)
      ensures ok ==> NodeLoad.NamedAll(data.nodes, NodeLoad.FakesOf(nodes))
    {
      if version != 0 {
        return false;
      }
      ok := true;
      var ns, c, rebuild := StandIns(data.nodes, data.nextNode, data.saveMap);
      ghost var fakes := NodeLoad.FakesOf(ns);
      Adopt(data, ns, c);
      assert State() == NodeLoad.Copied(data, fakes);
      FinishLoad(registry, rebuild);
      NodeLoad.LoadedFinished(data, registry, fakes);
      NodeLoad.LoadedFakes(data, registry, fakes);
      id, windowName := data.id, data.windowName;
    }

    /** The graph fields `load` copies from the data read, with the nodes
        `ns` and the node counter `c` that the node loop made of them. */
    method Adopt(data: NodeLoad.GraphData, ns: map<int, Node>, c: int)
      modifies this
      ensures State() == Editor(c, data.nextPin, data.nextLink, ns, data.pinToNode, data.links, data.displayNode, data.lastOutput)
      ensures unchanged(this`id, this`windowName, this`nameId, this`sequencerName, this`blocks)
    {
      nextNode, nextPin, nextLink, nodes, pinToNode, links, displayNode, lastOutput :=
        c, data.nextPin, data.nextLink, ns, data.pinToNode, data.links, data.displayNode, data.lastOutput;
    }

    /** The end of `load`, once the stand-ins are made: the link indexes
        are rebuilt and the extendable flags reset when `rebuild` is set,
        then the link and pin counters are raised past every id in use. */
    method FinishLoad(registry: map<string, EngineNodes.NodeData>, rebuild: bool)
      modifies this
      ensures State() == NodeLoad.Finished(old(State()), registry, rebuild)
      ensures Meta() == old(Meta())
    {
      if rebuild {
        ghost var g1 := State();
        RebuildLinks();
        assert State() == NodeLoad.Rebuilt(g1, Sorted(g1.links.Keys)) by {
          NodeLoad.RebuiltOverSorted(g1, g1.links.Keys);
        }
        ResetExtendable(registry);
      }
      nextLink := AdvancePast(nextLink, links.Keys);
      nextPin := AdvancePast(nextPin, pinToNode.Keys);
    }

    /** The rebuild loop of `load`: every link, in id order, is recorded at
        the node owning its start and at the node owning its end. */
    method RebuildLinks()
      modifies this
      ensures State() == NodeLoad.RebuiltOver(old(State()), old(State()).links.Keys)
      ensures Meta() == old(Meta())
    {
      ghost var g0 := State();
      var ns := nodes;
      var rest := links.Keys;
      ghost var done := {};
      while rest != {}
        modifies {}
        invariant done + rest == links.Keys && Precedes(done, rest)
        invariant g0.(nodes := ns) == NodeLoad.RebuiltOver(g0, done)
        decreases rest
      {
        var id := SetMin(rest);
        NodeLoad.RebuiltStepOver(g0, done, rest);
        ghost var x := g0.(nodes := ns);
        var l := links[id];
        if l.start in pinToNode && pinToNode[l.start] in ns {
          var k := pinToNode[l.start];
          ns := ns[k := AttachStart(ns[k], id, l.start)];
        }
        assert g0.(nodes := ns) == LinkStart(x, id, l.start);
        if l.end in pinToNode && pinToNode[l.end] in ns {
          var k := pinToNode[l.end];
          ns := ns[k := AttachEnd(ns[k], id, l.end)];
        }
        assert g0.(nodes := ns) == NodeLoad.RebuildStep(x, id);
        rest, done := rest - {id}, done + {id};
      }
      assert done == links.Keys;
      nodes := ns;
    }

    /** The flag loop of `load`: every node is extendable exactly when its
        registered type takes any number of inputs, or it is the display
        node's type. */
    method ResetExtendable(registry: map<string, EngineNodes.NodeData>)
      modifies this
      ensures State() == NodeLoad.Reset(old(State()), registry)
      ensures Meta() == old(Meta())
    {
      var ns := nodes;
      var rest := nodes.Keys;
      while rest != {}
        modifies {}
        invariant rest <= nodes.Keys
        invariant ns == NodeLoad.ResetExcept(nodes, registry, rest)
        decreases rest
      {
        var k := SetMin(rest);
        NodeLoad.ResetExceptStep(State(), registry, rest, k);
        var e := false;
        if ns[k].ntype in registry {
          if registry[ns[k].ntype].inputs == -1 {
            e := true;
          }
        } else if ns[k].ntype == "display" {
          e := true;
        }
        ns := ns[k := ns[k].(extendable := e)];
        rest := rest - {k};
      }
      NodeLoad.ResetExceptNone(State(), registry);
      nodes := ns;
    }

    /** `save(archive, version)`: any version but 0 is refused; version 0
        fills the graph data from the window and, node by node in id order,
        the save map with the parameters of every stand-in. */
    method Save(version: int) returns (r: Option<NodeLoad.GraphData>)
      ensures version != 0 ==> r.None?
      ensures version == 0 ==> r == Some(NodeLoad.SavedData(State(), id, windowName, NodeLoad.SaveMapOf(nodes, nodes.Keys)))
    {
      if version != 0 {
        return None;
      }
      var saveMap: NodeLoad.SaveMap := map[];
      var rest := nodes.Keys;
      while rest != {}
        invariant rest <= nodes.Keys
        invariant saveMap == NodeLoad.SaveMapOf(nodes, nodes.Keys - rest)
      {
        var k := SetMin(rest);
        NodeLoad.SaveMapOfAdd(nodes, nodes.Keys - rest, k);
        assert nodes.Keys - (rest - {k}) == (nodes.Keys - rest) + {k};
        if nodes[k].fake.Some? {
          saveMap := saveMap[k := nodes[k].fake.value.paramMap];
        }
        rest := rest - {k};
      }
      assert nodes.Keys - rest == nodes.Keys;
      r := Some(NodeLoad.GraphData(id, windowName, nextNode, nextPin, nextLink, nodes, pinToNode, links,
                                   displayNode, lastOutput, saveMap));
    }
  }
}
