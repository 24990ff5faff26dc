// `NodeWindow::initial_input` (src/ui/node_window.cpp): a file picked as the
// first input adds the input node its extension calls for and links it to
// the display node. `NodeWindows.NodeWindow.InitialInput` performs the same
// steps in place.
module InitialInputs {
  import opened Wrappers
  import opened Strings
  import opened NodeGraph
  import opened FakeNodes
  import EngineNodes

  /** The node type for a file extension (with its dot), compared in lower
      case: video containers go to ffmpeg, EXR to exr, Fujifilm raw to raw;
      any other extension is refused. */
  function InputType(ext: string): Option<string>
  {
    var e := Lower(ext);
    if e == ".mp4" || e == ".mkv" || e == ".mov" then Some("ffmpeg")
    else if e == ".exr" then Some("exr")
    else if e == ".raf" then Some("raw")
    else None
  }

  /** The mapping ignores case, accepts exactly five extensions, and sends
      each to its reader. */
  lemma InputTypeCases(ext: string)
    ensures InputType(ext) == InputType(Lower(ext))
    ensures InputType(ext).Some? <==> Lower(ext) in {".mp4", ".mkv", ".mov", ".exr", ".raf"}
    ensures InputType(ext) == Some("ffmpeg") <==> Lower(ext) in {".mp4", ".mkv", ".mov"}
    ensures InputType(ext) == Some("exr") <==> Lower(ext) == ".exr"
    ensures InputType(ext) == Some("raw") <==> Lower(ext) == ".raf"
  {
    LowerIdempotent(ext);
  }

  /** An upper-case extension is accepted like its lower-case spelling. */
  lemma UpperCaseAccepted()
    ensures InputType(".MP4") == Some("ffmpeg") && InputType(".Exr") == Some("exr") && InputType(".RAF") == Some("raw")
  {
    assert Lower(".MP4") == ".mp4";
    assert Lower(".Exr") == ".exr";
    assert Lower(".RAF") == ".raf";
  }

  /** The graph after `initial_input` adds a node of type `t`: the node is
      added, then the first output of the node found under the returned id
      is linked to the last input of the display node, when both exist. */
  function InitialInputGraph(g: Editor, t: string, registry: map<string, EngineNodes.NodeData>,
                             selected: Option<int>, made: Option<FakeNode>): Editor
  {
    var g1 := AddNode(g, t, registry, selected, made);
    if g.nextNode in g1.nodes && g1.nodes[g.nextNode].outputs != {} &&
       g1.displayNode in g1.nodes && g1.nodes[g1.displayNode].inputs != {} then
      NodeGraph.AddLink(g1, SetMin(g1.nodes[g.nextNode].outputs), SetMax(g1.nodes[g1.displayNode].inputs))
    else g1
  }

  /** From a valid state whose display node has an input, adding a type
      registered with outputs leaves a valid state in which the new node's
      first output feeds the display node's last input, as the only link
      into that pin. */
  lemma InitialInputLinksDisplay(g: Editor, t: string, registry: map<string, EngineNodes.NodeData>,
                                 selected: Option<int>, made: Option<FakeNode>)
    requires Valid(g)
    requires t in registry && registry[t].outputs >= 1
    requires g.displayNode in g.nodes && g.nodes[g.displayNode].inputs != {}
    ensures var g1 := AddNode(g, t, registry, selected, made);
      var r := InitialInputGraph(g, t, registry, selected, made);
      Valid(r) && g.nextNode in g1.nodes && g1.nodes[g.nextNode].outputs != {} &&
      g1.displayNode in g1.nodes && g1.nodes[g1.displayNode].inputs != {} &&
      var s := SetMin(g1.nodes[g.nextNode].outputs);
      var e := SetMax(g1.nodes[g1.displayNode].inputs);
      g1.nextLink in r.links && r.links[g1.nextLink] == Link(s, e) &&
      (forall l :: l in r.links && r.links[l].end == e ==> l == g1.nextLink)
  {
    var g1 := AddNode(g, t, registry, selected, made);
    AddedFacts(g, t, registry, selected, made);
    var s := SetMin(g1.nodes[g.nextNode].outputs);
    var e := SetMax(g1.nodes[g1.displayNode].inputs);
    LinkIntoOwnedInput(g1, s, e, g.nextNode, g1.displayNode);
  }

  /** After adding a registered type with outputs to a valid state, the
      state is valid, the new node has an output, and the display node keeps
      its inputs. */
  lemma AddedFacts(g: Editor, t: string, registry: map<string, EngineNodes.NodeData>,
                   selected: Option<int>, made: Option<FakeNode>)
    requires Valid(g)
    requires t in registry && registry[t].outputs >= 1
    requires g.displayNode in g.nodes
    ensures var g1 := AddNode(g, t, registry, selected, made);
      Valid(g1) && g.nextNode in g1.nodes && g1.nodes[g.nextNode].outputs != {} &&
      g1.displayNode == g.displayNode && g.displayNode in g1.nodes &&
      g1.nodes[g.displayNode].inputs == g.nodes[g.displayNode].inputs
  {
    var g1 := AddNode(g, t, registry, selected, made);
    AddNodeCreates(g, t, registry, selected, made);
    AddNodePreservesValid(g, t, registry, selected, made);
    NewNodePins(g, t, registry, made);
    EmplaceNodeKeepsValid(g, t, registry, made);
    LinkNewReshapes(g, t, registry, selected, made);
    var n := NewNode(g, t, registry, made).1;
    var g2 := Emplaced(g, t, registry, made);
    AddNodeSteps(g, t, registry, selected, made, n);
    assert g2.nodes[g.displayNode] == g.nodes[g.displayNode];
    assert g1.nodes == LinkNew(g2, n, selected).nodes;
  }

  /** Linking a pin of node `a` to an input pin of node `k` in a valid
      state keeps it valid and leaves the new link as the only one into that
      input. */
  lemma LinkIntoOwnedInput(g: Editor, s: int, e: int, a: int, k: int)
    requires Valid(g)
    requires a in g.nodes && s in Pins(g.nodes[a]) && k in g.nodes && e in g.nodes[k].inputs
    ensures var r := NodeGraph.AddLink(g, s, e);
      Valid(r) && g.nextLink in r.links && r.links[g.nextLink] == Link(s, e) &&
      (forall l :: l in r.links && r.links[l].end == e ==> l == g.nextLink)
  {
    assert e in Pins(g.nodes[k]);
    assert Owner(g, e) == Some(k);
    assert s in g.pinToNode && e in g.pinToNode;
    AddLinkPreservesCore(g, s, e);
    AddLinkEntersAlone(g, s, e);
    var r := NodeGraph.AddLink(g, s, e);
    assert Valid(r) by {
      assert forall j :: j in r.nodes ==> j < r.nextNode;
      assert r.lastOutput == -1 || r.lastOutput < r.nextPin;
    }
  }
}
