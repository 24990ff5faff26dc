// The older node editor window (src/ui/nodes.cpp): nodes keep one flat
// vector of the ids of the links that touch them instead of per-pin link
// indexes. Each editor operation is a function from state to state here;
// `LegacyWindow` performs the same steps in place and is proved equal to
// those functions. Two steps are modelled twice, as the source writes them
// and as they are evidently meant (see the findings in the README):
// `_add_link` pushes the link id twice onto the end node, and deleting a node
// compares the last added output pin with the node's id.
module LegacyNodes {
  import opened Wrappers
  import EngineNodes
  import NodeGraph

  /** `Node`: its type and display name, its pins, the ids of the links that
      touch it (in the order they were recorded), whether it holds a stand-in
      node, and whether its window is closed. */
  datatype LNode = LNode(name: string, displayName: string, inputs: set<int>, outputs: set<int>,
                         links: seq<int>, hasNode: bool, close: bool)

  datatype LLink = LLink(start: int, end: int)

  /** The window's saved state: the id counters, the nodes, the owner of
      every pin, the links, the display node and the last added output pin
      (-1 for none). */
  datatype Legacy = Legacy(nextNode: int, nextPin: int, nextLink: int,
                           nodes: map<int, LNode>, pinToNode: map<int, int>, links: map<int, LLink>,
                           displayNode: int, lastOutput: int)

  function Pins(n: LNode): set<int> { n.inputs + n.outputs }

  /** The node owning a pin, when the pin is known and its node exists. */
  function Owner(g: Legacy, pin: int): Option<int>
  {
    if pin in g.pinToNode && g.pinToNode[pin] in g.nodes then Some(g.pinToNode[pin]) else None
  }

  // ---------------------------------------------------------------------
  // The operations.

  /** `id` appended to the link list of node `k`. */
  function Push(g: Legacy, k: int, id: int): (r: Legacy)
    requires k in g.nodes
    ensures k in r.nodes
  {
    g.(nodes := g.nodes[k := g.nodes[k].(links := g.nodes[k].links + [id])])
  }

  /** The display node, once it has as many recorded links as inputs, gains
      a fresh input pin that it owns. */
  function Grow(g: Legacy, k: int): (r: Legacy)
    requires k in g.nodes
    ensures k in r.nodes
  {
    if k == g.displayNode && |g.nodes[k].links| == |g.nodes[k].inputs| then
      g.(nextPin := g.nextPin + 1,
         nodes := g.nodes[k := g.nodes[k].(inputs := g.nodes[k].inputs + {g.nextPin})],
         pinToNode := g.pinToNode[g.nextPin := g.displayNode])
    else g
  }

  /** The start side of `_add_link`: the start pin's node records the id. */
  function LinkStart(g: Legacy, id: int, start: int): Legacy
  {
    match Owner(g, start)
    case None => g
    case Some(k) => Push(g, k, id)
  }

  /** The end side of `_add_link`: the end pin's node records the id, grows
      when it is the display node, then records the id a second time when
      `twice` holds. */
  function LinkEnd(g: Legacy, id: int, end: int, twice: bool): Legacy
  {
    match Owner(g, end)
    case None => g
    case Some(k) =>
      var g2 := Grow(Push(g, k, id), k);
      if twice then Push(g2, k, id) else g2
  }

  /** `_add_link(start, end)`: the link is emplaced under the link counter,
      recorded by both end nodes, and the counter advances. */
  function LinkedWith(g: Legacy, start: int, end: int, twice: bool): Legacy
  {
    var g1 := if g.nextLink in g.links then g else g.(links := g.links[g.nextLink := LLink(start, end)]);
    LinkEnd(LinkStart(g1, g.nextLink, start), g.nextLink, end, twice).(nextLink := g.nextLink + 1)
  }

  /** `_add_link` as written: the end node records the id twice. */
  function LinkedAsWritten(g: Legacy, start: int, end: int): Legacy
  {
    LinkedWith(g, start, end, true)
  }

  /** `_add_link` recording the id once at each end. */
  function Linked(g: Legacy, start: int, end: int): Legacy
  {
    LinkedWith(g, start, end, false)
  }

  /** A destroyed link leaves `_links` only. */
  function Unlinked(g: Legacy, id: int): Legacy
  {
    g.(links := g.links - {id})
  }

  /** The links of node `k`, its pins and the node itself erased. */
  function Erase(g: Legacy, k: int): Legacy
    requires k in g.nodes
  {
    var n := g.nodes[k];
    g.(links := g.links - (set id | id in n.links),
       pinToNode := g.pinToNode - n.inputs - n.outputs,
       nodes := g.nodes - {k})
  }

  /** Deleting node `k` as written: the last added output is reset when it
      equals the node's id. */
  function DeletedAsWritten(g: Legacy, k: int): Legacy
  {
    var g1 := g.(lastOutput := if g.lastOutput == k then -1 else g.lastOutput);
    if k in g.nodes then Erase(g1, k) else g1
  }

  /** Deleting node `k`: the last added output is reset when it is one of
      the node's output pins. */
  function Deleted(g: Legacy, k: int): Legacy
  {
    if k in g.nodes then
      Erase(g.(lastOutput := if g.lastOutput in g.nodes[k].outputs then -1 else g.lastOutput), k)
    else g
  }

  /** `_pins(count)`: `count` consecutive fresh pins (none for a count below
      one) owned by the next node id. */
  function AddPins(g: Legacy, count: int): (r: Legacy)
    ensures r.nextPin == g.nextPin + (if count < 0 then 0 else count)
    ensures r == g.(nextPin := r.nextPin, pinToNode := r.pinToNode)
    ensures forall p :: p in r.pinToNode <==> p in g.pinToNode || g.nextPin <= p < r.nextPin
    ensures forall p :: p in r.pinToNode ==>
              r.pinToNode[p] == if g.nextPin <= p < r.nextPin then g.nextNode else g.pinToNode[p]
  {
    var hi := g.nextPin + (if count < 0 then 0 else count);
    g.(nextPin := hi, pinToNode := NodeGraph.Assign(g.pinToNode, g.nextPin, hi, g.nextNode))
  }

  /** The node `_add_node(t)` builds, with the state after its pins are
      allocated: a registered type takes its name, display name and pin
      counts from the registry and a stand-in node; an unregistered
      "display" gets one input; any other type gets no pins. */
  function NewNode(g: Legacy, t: string, registry: map<string, EngineNodes.NodeData>): (Legacy, LNode)
  {
    if t in registry then
      var d := registry[t];
      var g1 := AddPins(g, d.inputs);
      var g2 := AddPins(g1, d.outputs);
      (g2, LNode(d.ntype, d.displayName, NodeGraph.Range(g.nextPin, g1.nextPin),
                 NodeGraph.Range(g1.nextPin, g2.nextPin), [], true, false))
    else if t == "display" then
      var g1 := AddPins(g, 1);
      (g1, LNode(t, "", NodeGraph.Range(g.nextPin, g1.nextPin), {}, [], false, false))
    else (g, LNode(t, "", {}, {}, [], false, false))
  }

  /** The state once the new node is emplaced under the node counter. */
  function Emplaced(g: Legacy, t: string, registry: map<string, EngineNodes.NodeData>): Legacy
  {
    var (g1, n) := NewNode(g, t, registry);
    g1.(nodes := if g.nextNode in g1.nodes then g1.nodes else g1.nodes[g.nextNode := n])
  }

  /** `_add_node(t)`: the node is emplaced, the last added output is linked
      to its first input when both exist, its first output becomes the last
      added output, and the node counter advances. */
  function Added(g: Legacy, t: string, registry: map<string, EngineNodes.NodeData>): Legacy
  {
    var n := NewNode(g, t, registry).1;
    LinkNew(Emplaced(g, t, registry), n).(lastOutput := if n.outputs == {} then -1 else NodeGraph.SetMin(n.outputs),
                                           nextNode := g.nextNode + 1)
  }

  /** The link from the last added output to the first input of the new
      node `n`, when both exist, made by `_add_link` as written. */
  function LinkNew(g: Legacy, n: LNode): Legacy
  {
    if g.lastOutput != -1 && n.inputs != {} then LinkedAsWritten(g, g.lastOutput, NodeGraph.SetMin(n.inputs)) else g
  }

  /** `add_input`: an "ffmpeg" node is added and its first output linked to
      the display node's last input. Where the source dereferences an empty
      pin set, no link is made here. */
  function InputAdded(g: Legacy, registry: map<string, EngineNodes.NodeData>): Legacy
  {
    var g1 := Added(g, "ffmpeg", registry);
    var outs := NewNode(g, "ffmpeg", registry).1.outputs;
    if outs != {} && g1.displayNode in g1.nodes && g1.nodes[g1.displayNode].inputs != {} then
      LinkedAsWritten(g1, NodeGraph.SetMin(outs), NodeGraph.SetMax(g1.nodes[g1.displayNode].inputs))
    else g1
  }

  /** The nodes `build_nodes` queues from node `k`, in the order of the ids
      in `ls`: for each id of a link that ends at an input of `k`, the node
      owning the link's start pin. */
  function Sources(g: Legacy, k: int, ls: seq<int>): seq<int>
    requires k in g.nodes
  {
    if ls == [] then []
    else
      var id := ls[|ls| - 1];
      Sources(g, k, ls[..|ls| - 1]) +
        (if id in g.links && g.links[id].end in g.nodes[k].inputs && g.links[id].start in g.pinToNode
         then [g.pinToNode[g.links[id].start]] else [])
  }

  // ---------------------------------------------------------------------
  // The invariant.

  /** Every known pin belongs to an existing node that lists it, and every
      pin a node lists is known as that node's. */
  predicate PinsOwned(g: Legacy)
  {
    (forall p :: p in g.pinToNode ==> g.pinToNode[p] in g.nodes && p in Pins(g.nodes[g.pinToNode[p]])) &&
    (forall k, p :: k in g.nodes && p in Pins(g.nodes[k]) ==> p in g.pinToNode && g.pinToNode[p] == k)
  }

  /** Every pin in use is below the pin counter. */
  predicate PinsBelow(g: Legacy)
  {
    forall p :: p in g.pinToNode ==> p < g.nextPin
  }

  /** The last added output is none, or an output pin of an existing node. */
  predicate LastOutputLive(g: Legacy)
  {
    g.lastOutput == -1 ||
    (Owner(g, g.lastOutput).Some? && g.lastOutput in g.nodes[g.pinToNode[g.lastOutput]].outputs)
  }

  /** The node counter is past every node id and the display node's. */
  predicate NodesBelow(g: Legacy)
  {
    g.displayNode < g.nextNode && forall k :: k in g.nodes ==> k < g.nextNode
  }

  /** The link counter is past every link id. */
  predicate LinksBelow(g: Legacy)
  {
    forall id :: id in g.links ==> id < g.nextLink
  }

  predicate Valid(g: Legacy)
  {
    PinsOwned(g) && PinsBelow(g) && LastOutputLive(g) && NodesBelow(g) && LinksBelow(g)
  }

  /** The display node has one input more than it has recorded links, so
      one input is always free for the next link. */
  predicate Spare(g: Legacy)
  {
    g.displayNode in g.nodes ==>
      |g.nodes[g.displayNode].links| + 1 == |g.nodes[g.displayNode].inputs|
  }

  // ---------------------------------------------------------------------
  // Adding a link.

  /** `r` differs from `g` at most in the link lists of its nodes. */
  predicate SamePins(g: Legacy, r: Legacy)
  {
    r.nodes.Keys == g.nodes.Keys && r.pinToNode == g.pinToNode && r.nextPin == g.nextPin &&
    forall k :: k in g.nodes ==> Pins(r.nodes[k]) == Pins(g.nodes[k]) && r.nodes[k].outputs == g.nodes[k].outputs
  }

  lemma SamePinsKeep(g: Legacy, r: Legacy)
    requires SamePins(g, r) && PinsOwned(g) && PinsBelow(g)
    ensures PinsOwned(r) && PinsBelow(r)
  {
    forall p | p in r.pinToNode
      ensures r.pinToNode[p] in r.nodes && p in Pins(r.nodes[r.pinToNode[p]])
    {
      var o := g.pinToNode[p];
      assert o in g.nodes && p in Pins(g.nodes[o]);
      assert Pins(r.nodes[o]) == Pins(g.nodes[o]);
    }
    forall k, p | k in r.nodes && p in Pins(r.nodes[k])
      ensures p in r.pinToNode && r.pinToNode[p] == k
    {
      assert p in Pins(g.nodes[k]);
    }
  }

  lemma PushKeeps(g: Legacy, k: int, id: int)
    requires k in g.nodes
    ensures SamePins(g, Push(g, k, id))
    ensures forall j :: j in g.nodes ==>
              Push(g, k, id).nodes[j].links == g.nodes[j].links + (if j == k then [id] else [])
    ensures Push(g, k, id) == g.(nodes := Push(g, k, id).nodes)
  {
  }

  lemma GrowKeepsPins(g: Legacy, k: int)
    requires k in g.nodes && PinsOwned(g) && PinsBelow(g)
    ensures var r := Grow(g, k);
      PinsOwned(r) && PinsBelow(r) && r.nextPin >= g.nextPin && r.nodes.Keys == g.nodes.Keys &&
      (forall p :: p in g.pinToNode ==> p in r.pinToNode && r.pinToNode[p] == g.pinToNode[p]) &&
      (forall j :: j in g.nodes ==> g.nodes[j].outputs == r.nodes[j].outputs && g.nodes[j].links == r.nodes[j].links) &&
      r == g.(nextPin := r.nextPin, nodes := r.nodes, pinToNode := r.pinToNode)
  {
    if k == g.displayNode && |g.nodes[k].links| == |g.nodes[k].inputs| {
      var r := Grow(g, k);
      assert g.nextPin !in g.pinToNode;
      forall j, p | j in r.nodes && p in Pins(r.nodes[j])
        ensures p in r.pinToNode && r.pinToNode[p] == j
      {
        if j != k {
          assert Pins(r.nodes[j]) == Pins(g.nodes[j]);
        } else if p != g.nextPin {
          assert p in Pins(g.nodes[j]);
        }
      }
    }
  }

  /** The start side changes at most the start node's link list. */
  lemma LinkStartNode(g: Legacy, id: int, s: int, j: int)
    requires j in g.nodes
    ensures var r := LinkStart(g, id, s);
      r == g.(nodes := r.nodes) && r.nodes.Keys == g.nodes.Keys &&
      r.nodes[j] == g.nodes[j].(links := g.nodes[j].links + (if Owner(g, s) == Some(j) then [id] else []))
  {
  }

  /** The end side changes at most the end node: its link list, and for the
      display node one fresh input pin when its first append makes its links
      as many as its inputs. */
  lemma LinkEndNode(g: Legacy, id: int, e: int, twice: bool, j: int)
    requires j in g.nodes
    ensures var r := LinkEnd(g, id, e, twice);
      var first := g.nodes[j].links + [id];
      j in r.nodes && r.nodes.Keys == g.nodes.Keys &&
      r.nodes[j] == g.nodes[j].(
        links := g.nodes[j].links + (if Owner(g, e) == Some(j) then (if twice then [id, id] else [id]) else []),
        inputs := g.nodes[j].inputs +
          (if Owner(g, e) == Some(j) && j == g.displayNode && |first| == |g.nodes[j].inputs| then {g.nextPin} else {}))
  {
    var first := g.nodes[j].links + [id];
    match Owner(g, e)
    case None =>
    case Some(k) =>
      var g3 := Push(g, k, id);
      assert g3.nodes[j] == if j == k then g.nodes[j].(links := first) else g.nodes[j];
      var g4 := Grow(g3, k);
      assert g4.nodes[j].links == g3.nodes[j].links;
      if twice && j == k {
        assert first + [id] == g.nodes[j].links + [id, id];
      }
  }

  /** Adding a link changes node `j` only by appending the ids it records,
      and, for the display node receiving the link, by one fresh input pin
      when its first append makes its links as many as its inputs. */
  lemma LinkedWithNode(g: Legacy, s: int, e: int, twice: bool, j: int)
    requires j in g.nodes
    ensures var r := LinkedWith(g, s, e, twice);
      var first := g.nodes[j].links + (if Owner(g, s) == Some(j) then [g.nextLink] else []) + [g.nextLink];
      j in r.nodes &&
      r.nodes[j].links == g.nodes[j].links + (if Owner(g, s) == Some(j) then [g.nextLink] else [])
        + (if Owner(g, e) == Some(j) then (if twice then [g.nextLink, g.nextLink] else [g.nextLink]) else []) &&
      r.nodes[j].outputs == g.nodes[j].outputs &&
      r.nodes[j].inputs == g.nodes[j].inputs +
        (if Owner(g, e) == Some(j) && j == g.displayNode && |first| == |g.nodes[j].inputs| then {g.nextPin} else {})
  {
    var id := g.nextLink;
    var g1 := if id in g.links then g else g.(links := g.links[id := LLink(s, e)]);
    assert g1.nodes == g.nodes && g1.pinToNode == g.pinToNode;
    var g2 := LinkStart(g1, id, s);
    LinkStartNode(g1, id, s, j);
    assert Owner(g2, e) == Owner(g, e) && Owner(g1, s) == Owner(g, s);
    LinkEndNode(g2, id, e, twice, j);
  }

  /** `r` keeps the pin invariant of `g` and every pin owner, node and
      output `g` has, and differs from `g` only in its nodes, pins and
      links. */
  predicate Extends(g: Legacy, r: Legacy)
  {
    PinsOwned(r) && PinsBelow(r) && r.nextPin >= g.nextPin &&
    r == g.(nextPin := r.nextPin, nextLink := r.nextLink, nodes := r.nodes, pinToNode := r.pinToNode, links := r.links) &&
    r.nodes.Keys == g.nodes.Keys &&
    (forall p :: p in g.pinToNode ==> p in r.pinToNode && r.pinToNode[p] == g.pinToNode[p]) &&
    (forall k :: k in g.nodes ==> g.nodes[k].outputs == r.nodes[k].outputs)
  }

  lemma ExtendsTrans(a: Legacy, b: Legacy, c: Legacy)
    requires Extends(a, b) && Extends(b, c)
    ensures Extends(a, c)
  {
  }

  lemma LinkStartKeepsPins(g: Legacy, id: int, s: int)
    requires PinsOwned(g) && PinsBelow(g)
    ensures Extends(g, LinkStart(g, id, s)) && LinkStart(g, id, s).links == g.links
  {
    if Owner(g, s).Some? {
      PushKeeps(g, Owner(g, s).value, id);
    }
    SamePinsKeep(g, LinkStart(g, id, s));
  }

  lemma LinkEndKeepsPins(g: Legacy, id: int, e: int, twice: bool)
    requires PinsOwned(g) && PinsBelow(g)
    ensures Extends(g, LinkEnd(g, id, e, twice)) && LinkEnd(g, id, e, twice).links == g.links
  {
    match Owner(g, e)
    case None =>
    case Some(k) =>
      var g3 := Push(g, k, id);
      PushKeeps(g, k, id);
      SamePinsKeep(g, g3);
      var g4 := Grow(g3, k);
      GrowKeepsPins(g3, k);
      assert Extends(g, g4);
      if twice {
        PushKeeps(g4, k, id);
        SamePinsKeep(g4, Push(g4, k, id));
        assert Extends(g4, Push(g4, k, id));
        ExtendsTrans(g, g4, Push(g4, k, id));
      }
  }

  /** Adding a link keeps every pin owned and below the counter, changes no
      node's outputs and no pin's owner, stores the link under the old
      counter when that id is free, and advances the counter. */
  lemma LinkedWithKeepsPins(g: Legacy, s: int, e: int, twice: bool)
    requires PinsOwned(g) && PinsBelow(g)
    ensures var r := LinkedWith(g, s, e, twice);
      Extends(g, r) && r.nextLink == g.nextLink + 1 &&
      (g.nextLink !in g.links ==> r.links == g.links[g.nextLink := LLink(s, e)]) &&
      (g.nextLink in g.links ==> r.links == g.links)
  {
    var id := g.nextLink;
    var g1 := if id in g.links then g else g.(links := g.links[id := LLink(s, e)]);
    assert PinsOwned(g1) && PinsBelow(g1);
    var g2 := LinkStart(g1, id, s);
    LinkStartKeepsPins(g1, id, s);
    var g3 := LinkEnd(g2, id, e, twice);
    LinkEndKeepsPins(g2, id, e, twice);
    ExtendsTrans(g1, g2, g3);
    assert Extends(g, g1);
    ExtendsTrans(g, g1, g3);
  }

  /** Adding a link, recording the id at the end once or twice, keeps the
      invariant. */
  lemma AddLinkKeepsValid(g: Legacy, s: int, e: int, twice: bool)
    requires Valid(g)
    ensures Valid(LinkedWith(g, s, e, twice))
  {
    LinkedWithKeepsPins(g, s, e, twice);
    var r := LinkedWith(g, s, e, twice);
    assert LinksBelow(r) && NodesBelow(r);
    assert LastOutputLive(r) by {
      if r.lastOutput != -1 {
        assert r.lastOutput in r.pinToNode && r.pinToNode[r.lastOutput] == g.pinToNode[r.lastOutput];
      }
    }
  }

  /** As written, the start node records the new id once and the end node
      twice (start first when one node owns both pins), and the counter
      advances by one. */
  lemma AddLinkAsWrittenRecords(g: Legacy, s: int, e: int, j: int)
    requires j in g.nodes
    ensures var r := LinkedAsWritten(g, s, e);
      r.nextLink == g.nextLink + 1 && j in r.nodes &&
      r.nodes[j].links == g.nodes[j].links + (if Owner(g, s) == Some(j) then [g.nextLink] else [])
                                           + (if Owner(g, e) == Some(j) then [g.nextLink, g.nextLink] else [])
  {
    LinkedWithNode(g, s, e, true, j);
  }

  /** Recording once, the start node and the end node each record the new
      id once. */
  lemma AddLinkRecords(g: Legacy, s: int, e: int, j: int)
    requires j in g.nodes
    ensures var r := Linked(g, s, e);
      r.nextLink == g.nextLink + 1 && j in r.nodes &&
      r.nodes[j].links == g.nodes[j].links + (if Owner(g, s) == Some(j) then [g.nextLink] else [])
                                           + (if Owner(g, e) == Some(j) then [g.nextLink] else [])
  {
    LinkedWithNode(g, s, e, false, j);
  }

  /** The display node has taken every input it has: from here on, as
      written, it never grows again. */
  predicate Stalled(g: Legacy)
  {
    g.displayNode in g.nodes ==> |g.nodes[g.displayNode].links| >= |g.nodes[g.displayNode].inputs|
  }

  /** Recording once, the display node keeps a free input: a link into it
      grows it by one pin. A link that starts at a display pin is excluded;
      the display node has no outputs. */
  lemma AddLinkKeepsSpare(g: Legacy, s: int, e: int)
    requires PinsOwned(g) && PinsBelow(g) && Spare(g)
    requires Owner(g, s) != Some(g.displayNode)
    ensures Spare(Linked(g, s, e))
    ensures g.displayNode in g.nodes && Owner(g, e) == Some(g.displayNode) ==>
              |Linked(g, s, e).nodes[g.displayNode].inputs| == |g.nodes[g.displayNode].inputs| + 1
  {
    var d := g.displayNode;
    if d in g.nodes {
      LinkedWithNode(g, s, e, false, d);
      assert g.nextPin !in g.pinToNode;
      assert g.nextPin !in g.nodes[d].inputs;
    }
  }

  /** As written, the first link into a display node with a free input
      grows it by one pin and leaves it stalled; once stalled, further links
      into it leave its inputs as they are and it stays stalled. */
  lemma AsWrittenDisplayStalls(g: Legacy, s: int, e: int)
    requires PinsOwned(g) && PinsBelow(g) && (Spare(g) || Stalled(g))
    requires Owner(g, s) != Some(g.displayNode) && Owner(g, e) == Some(g.displayNode)
    ensures var r := LinkedAsWritten(g, s, e);
      var d := g.displayNode;
      Stalled(r) && d in r.nodes &&
      (Stalled(g) ==> r.nodes[d].inputs == g.nodes[d].inputs) &&
      (!Stalled(g) ==> |r.nodes[d].inputs| == |g.nodes[d].inputs| + 1)
  {
    var d := g.displayNode;
    LinkedWithNode(g, s, e, true, d);
    assert g.nextPin !in g.pinToNode;
    assert g.nextPin !in g.nodes[d].inputs;
  }

  /** A link id recorded once, or twice, yields its source once, or twice. */
  lemma SourcesOfOne(g: Legacy, k: int, id: int)
    requires k in g.nodes && id in g.links && g.links[id].end in g.nodes[k].inputs
    requires g.links[id].start in g.pinToNode
    ensures Sources(g, k, [id]) == [g.pinToNode[g.links[id].start]]
    ensures Sources(g, k, [id, id]) == [g.pinToNode[g.links[id].start], g.pinToNode[g.links[id].start]]
  {
    assert [id, id][..1] == [id];
    assert [id][..0] == [];
  }

  /** As written, a single link into a node with no recorded links makes
      `build_nodes` queue its source twice. */
  lemma SourcesOfNewLinkAsWritten(g: Legacy, s: int, e: int, k: int)
    requires PinsOwned(g) && PinsBelow(g)
    requires k in g.nodes && g.nodes[k].links == [] && e in g.nodes[k].inputs
    requires s in g.pinToNode && g.pinToNode[s] != k && g.nextLink !in g.links
    ensures var w := LinkedAsWritten(g, s, e);
      k in w.nodes && Sources(w, k, w.nodes[k].links) == [g.pinToNode[s], g.pinToNode[s]]
  {
    var id := g.nextLink;
    assert Owner(g, e) == Some(k) && Owner(g, s) != Some(k);
    var w := LinkedAsWritten(g, s, e);
    LinkedWithNode(g, s, e, true, k);
    LinkedWithKeepsPins(g, s, e, true);
    assert w.nodes[k].links == [id, id];
    SourcesOfOne(w, k, id);
  }

  /** Recording once, the same link makes `build_nodes` queue its source
      once. */
  lemma SourcesOfNewLink(g: Legacy, s: int, e: int, k: int)
    requires PinsOwned(g) && PinsBelow(g)
    requires k in g.nodes && g.nodes[k].links == [] && e in g.nodes[k].inputs
    requires s in g.pinToNode && g.pinToNode[s] != k && g.nextLink !in g.links
    ensures var c := Linked(g, s, e);
      k in c.nodes && Sources(c, k, c.nodes[k].links) == [g.pinToNode[s]]
  {
    var id := g.nextLink;
    assert Owner(g, e) == Some(k) && Owner(g, s) != Some(k);
    var c := Linked(g, s, e);
    LinkedWithNode(g, s, e, false, k);
    LinkedWithKeepsPins(g, s, e, false);
    assert c.nodes[k].links == [id];
    SourcesOfOne(c, k, id);
  }

  // ---------------------------------------------------------------------
  // Destroying a link and deleting a node.

  /** Destroying a link leaves every node's link list as it was, so the id
      stays recorded there; deleting a node later erases it again, which is
      harmless: destroying and deleting commute. */
  lemma DestroyThenDelete(g: Legacy, id: int, k: int)
    ensures Unlinked(g, id).nodes == g.nodes && id !in Unlinked(g, id).links
    ensures Valid(g) ==> Valid(Unlinked(g, id))
    ensures Deleted(Unlinked(g, id), k) == Unlinked(Deleted(g, k), id)
  {
    if k in g.nodes {
      var n := g.nodes[k];
      var ids := set i | i in n.links;
      assert g.links - {id} - ids == g.links - ids - {id};
    }
  }

  /** Deleting a node keeps the invariant: its pins leave the owner map with
      it, and the last added output is reset exactly when it was one of the
      node's outputs. */
  lemma DeleteNodeKeepsValid(g: Legacy, k: int)
    requires Valid(g)
    ensures Valid(Deleted(g, k))
    ensures k !in Deleted(g, k).nodes
    ensures Deleted(g, k).lastOutput ==
              if k in g.nodes && g.lastOutput in g.nodes[k].outputs then -1 else g.lastOutput
  {
    if k in g.nodes {
      var r := Deleted(g, k);
      var n := g.nodes[k];
      assert r.pinToNode == g.pinToNode - n.inputs - n.outputs && r.nodes == g.nodes - {k};
      forall p | p in r.pinToNode
        ensures r.pinToNode[p] in r.nodes && p in Pins(r.nodes[r.pinToNode[p]])
      {
        assert p !in Pins(n);
        assert g.pinToNode[p] != k;
      }
      forall j, p | j in r.nodes && p in Pins(r.nodes[j])
        ensures p in r.pinToNode && r.pinToNode[p] == j
      {
        assert p in g.pinToNode && g.pinToNode[p] == j;
        assert p !in Pins(n);
      }
      if r.lastOutput != -1 {
        var lo := g.lastOutput;
        assert lo !in n.outputs;
        var o := g.pinToNode[lo];
        assert o in g.nodes && lo in g.nodes[o].outputs;
        assert o != k;
        assert lo !in Pins(n);
        assert lo in r.pinToNode && r.pinToNode[lo] == o && o in r.nodes && r.nodes[o] == g.nodes[o];
      }
    }
  }

  /** As written, deleting the node that owns the last added output keeps
      the pin as the last added output although the pin no longer exists. */
  lemma DeleteNodeAsWrittenDangles()
    ensures var g := Legacy(2, 3, 0, map[1 := LNode("blur", "Blur", {1}, {2}, [], true, false)],
                            map[1 := 1, 2 := 1], map[], -1, 2);
      Valid(g) && DeletedAsWritten(g, 1).lastOutput == 2 && !LastOutputLive(DeletedAsWritten(g, 1)) &&
      Deleted(g, 1).lastOutput == -1
  {
    var g := Legacy(2, 3, 0, map[1 := LNode("blur", "Blur", {1}, {2}, [], true, false)],
                    map[1 := 1, 2 := 1], map[], -1, 2);
    assert Pins(g.nodes[1]) == {1, 2} && g.pinToNode.Keys == {1, 2};
    assert Owner(g, 2) == Some(1);
    var r := DeletedAsWritten(g, 1);
    assert r.pinToNode == map[1 := 1, 2 := 1] - {1} - {2};
    assert 2 !in r.pinToNode;
  }

  // ---------------------------------------------------------------------
  // Adding a node.

  lemma NewNodeFacts(g: Legacy, t: string, registry: map<string, EngineNodes.NodeData>)
    requires PinsBelow(g)
    ensures var (g1, n) := NewNode(g, t, registry);
      g1 == g.(nextPin := g1.nextPin, pinToNode := g1.pinToNode) && g.nextPin <= g1.nextPin &&
      Pins(n) == NodeGraph.Range(g.nextPin, g1.nextPin) && n.links == [] &&
      (forall p :: g.nextPin <= p < g1.nextPin ==> p in g1.pinToNode && g1.pinToNode[p] == g.nextNode) &&
      (forall p :: p in g1.pinToNode ==> p in g.pinToNode || g.nextPin <= p < g1.nextPin) &&
      (forall p :: p in g.pinToNode ==> p in g1.pinToNode && g1.pinToNode[p] == g.pinToNode[p])
  {
    if t in registry {
      var d := registry[t];
      var g1 := AddPins(g, d.inputs);
      var g2 := AddPins(g1, d.outputs);
      assert NodeGraph.Range(g.nextPin, g1.nextPin) + NodeGraph.Range(g1.nextPin, g2.nextPin)
          == NodeGraph.Range(g.nextPin, g2.nextPin);
    }
  }

  /** Emplacing the new node under a fresh id keeps the invariant apart from
      the last added output, which `_add_node` replaces. */
  lemma EmplacedKeepsPins(g: Legacy, t: string, registry: map<string, EngineNodes.NodeData>)
    requires Valid(g)
    ensures var g2 := Emplaced(g, t, registry);
      PinsOwned(g2) && PinsBelow(g2) && g.nextNode in g2.nodes &&
      g2.nodes[g.nextNode] == NewNode(g, t, registry).1 &&
      g2.nodes == g.nodes[g.nextNode := NewNode(g, t, registry).1] &&
      g2.nextNode == g.nextNode && g2.lastOutput == g.lastOutput && g2.displayNode == g.displayNode &&
      g2.nextLink == g.nextLink && g2.links == g.links && LinksBelow(g2) &&
      (forall p :: p in g.pinToNode ==> p in g2.pinToNode && g2.pinToNode[p] == g.pinToNode[p])
  {
    NewNodeFacts(g, t, registry);
    var (g1, n) := NewNode(g, t, registry);
    var g2 := Emplaced(g, t, registry);
    assert g.nextNode !in g.nodes;
    forall p | p in g2.pinToNode
      ensures g2.pinToNode[p] in g2.nodes && p in Pins(g2.nodes[g2.pinToNode[p]])
    {
      if p in g.pinToNode {
        assert p < g.nextPin;
      }
    }
    forall j, p | j in g2.nodes && p in Pins(g2.nodes[j])
      ensures p in g2.pinToNode && g2.pinToNode[p] == j
    {
      if j != g.nextNode {
        assert p in g.pinToNode;
      }
    }
  }

  /** Linking the new node keeps the pins, the link ids below the counter,
      and stores the link under the old counter when it is made. */
  lemma LinkNewKeeps(g: Legacy, n: LNode)
    requires PinsOwned(g) && PinsBelow(g) && LinksBelow(g)
    ensures var r := LinkNew(g, n);
      Extends(g, r) && LinksBelow(r) &&
      (g.lastOutput != -1 && n.inputs != {} ==>
         g.nextLink in r.links && r.links[g.nextLink] == LLink(g.lastOutput, NodeGraph.SetMin(n.inputs)))
  {
    if g.lastOutput != -1 && n.inputs != {} {
      LinkedWithKeepsPins(g, g.lastOutput, NodeGraph.SetMin(n.inputs), true);
    }
  }

  /** The new node `_add_node` emplaces keeps the pins allocated for it
      when the link into its first input is made. */
  lemma LinkNewKeepsNode(g: Legacy, t: string, registry: map<string, EngineNodes.NodeData>)
    requires Valid(g)
    ensures var n := NewNode(g, t, registry).1;
      var g3 := LinkNew(Emplaced(g, t, registry), n);
      Extends(Emplaced(g, t, registry), g3) && LinksBelow(g3) &&
      g.nextNode in g3.nodes && g3.nodes[g.nextNode].inputs == n.inputs && g3.nodes[g.nextNode].outputs == n.outputs &&
      g3.nodes.Keys == g.nodes.Keys + {g.nextNode} && g3.nextNode == g.nextNode && g3.displayNode == g.displayNode &&
      (g.lastOutput != -1 && n.inputs != {} ==>
         g.nextLink in g3.links && g3.links[g.nextLink] == LLink(g.lastOutput, NodeGraph.SetMin(n.inputs)))
  {
    var n := NewNode(g, t, registry).1;
    var g2 := Emplaced(g, t, registry);
    EmplacedKeepsPins(g, t, registry);
    var g3 := LinkNew(g2, n);
    LinkNewKeeps(g2, n);
    if g.lastOutput != -1 && n.inputs != {} {
      assert g.nextNode != g2.displayNode && g.nextNode in g2.nodes;
      LinkedWithNode(g2, g.lastOutput, NodeGraph.SetMin(n.inputs), true, g.nextNode);
    }
  }

  /** `_add_node` keeps the invariant. */
  lemma AddNodeKeepsValid(g: Legacy, t: string, registry: map<string, EngineNodes.NodeData>)
    requires Valid(g)
    ensures Valid(Added(g, t, registry))
  {
    var n := NewNode(g, t, registry).1;
    var g3 := LinkNew(Emplaced(g, t, registry), n);
    LinkNewKeepsNode(g, t, registry);
    var r := Added(g, t, registry);
    assert r == g3.(lastOutput := r.lastOutput, nextNode := g.nextNode + 1);
    assert LastOutputLive(r) by {
      if r.lastOutput != -1 {
        assert r.lastOutput in Pins(r.nodes[g.nextNode]);
      }
    }
  }

  /** `_add_node` hands out the node counter; the new node is there with
      the pins allocated for it, the last added output becomes its first
      output (or none), and when a previous output was recorded and the new
      node has an input, a link from that output to its first input is
      stored under the old link counter. */
  lemma AddNodeLinksPrevious(g: Legacy, t: string, registry: map<string, EngineNodes.NodeData>)
    requires Valid(g)
    ensures var r := Added(g, t, registry);
      var n := NewNode(g, t, registry).1;
      r.nextNode == g.nextNode + 1 && g.nextNode in r.nodes &&
      r.displayNode == g.displayNode && r.nodes.Keys == g.nodes.Keys + {g.nextNode} &&
      r.nodes[g.nextNode].inputs == n.inputs && r.nodes[g.nextNode].outputs == n.outputs &&
      r.lastOutput == (if n.outputs == {} then -1 else NodeGraph.SetMin(n.outputs)) &&
      (g.lastOutput != -1 && n.inputs != {} ==>
         g.nextLink in r.links && r.links[g.nextLink] == LLink(g.lastOutput, NodeGraph.SetMin(n.inputs)))
  {
    LinkNewKeepsNode(g, t, registry);
  }

  /** The window a new `NodeWindow` starts with: a display node with one
      free input, the invariant holding. */
  lemma InitialWindow(registry: map<string, EngineNodes.NodeData>)
    requires "display" !in registry
    ensures var g := Added(Legacy(0, 0, 0, map[], map[], map[], -1, -1), "display", registry).(displayNode := 0);
      Valid(g) && Spare(g) && g.nodes.Keys == {0} && |g.nodes[0].inputs| == 1
  {
    var g0 := Legacy(0, 0, 0, map[], map[], map[], -1, -1);
    AddNodeKeepsValid(g0, "display", registry);
    AddNodeLinksPrevious(g0, "display", registry);
    var n := NewNode(g0, "display", registry).1;
    assert n.inputs == {0} && n.links == [];
    var g1 := Added(g0, "display", registry);
    assert g1.nodes[0].links == [] by {
      assert g1.nodes == Emplaced(g0, "display", registry).nodes;
    }
  }

  /** `add_input` keeps the invariant. */
  lemma AddInputKeepsValid(g: Legacy, registry: map<string, EngineNodes.NodeData>)
    requires Valid(g)
    ensures Valid(InputAdded(g, registry))
  {
    AddNodeKeepsValid(g, "ffmpeg", registry);
    var g1 := Added(g, "ffmpeg", registry);
    var outs := NewNode(g, "ffmpeg", registry).1.outputs;
    if outs != {} && g1.displayNode in g1.nodes && g1.nodes[g1.displayNode].inputs != {} {
      var s := NodeGraph.SetMin(outs);
      var e := NodeGraph.SetMax(g1.nodes[g1.displayNode].inputs);
      AddLinkKeepsValid(g1, s, e, true);
    }
  }

  /** `add_input`: when the new node has an output and the display node an
      input, the new node's first output is linked to the display node's
      last input under the link counter that follows `_add_node`. */
  lemma AddInputLinksDisplay(g: Legacy, registry: map<string, EngineNodes.NodeData>)
    requires Valid(g)
    ensures var g1 := Added(g, "ffmpeg", registry);
      var outs := NewNode(g, "ffmpeg", registry).1.outputs;
      outs != {} && g1.displayNode in g1.nodes && g1.nodes[g1.displayNode].inputs != {} ==>
        g1.nextLink in InputAdded(g, registry).links &&
        InputAdded(g, registry).links[g1.nextLink] ==
          LLink(NodeGraph.SetMin(outs), NodeGraph.SetMax(g1.nodes[g1.displayNode].inputs))
  {
    AddNodeKeepsValid(g, "ffmpeg", registry);
    var g1 := Added(g, "ffmpeg", registry);
    var outs := NewNode(g, "ffmpeg", registry).1.outputs;
    if outs != {} && g1.displayNode in g1.nodes && g1.nodes[g1.displayNode].inputs != {} {
      LinkedWithKeepsPins(g1, NodeGraph.SetMin(outs), NodeGraph.SetMax(g1.nodes[g1.displayNode].inputs), true);
    }
  }

  // ---------------------------------------------------------------------
  // The window.

  /** The elements of a sequence. */
  function Elems(s: seq<int>): set<int>
  {
    set x | x in s
  }

  lemma ElemsSnoc(s: seq<int>, i: int)
    requires 0 <= i < |s|
    ensures Elems(s[..i + 1]) == Elems(s[..i]) + {s[i]}
  {
    assert s[..i + 1] == s[..i] + [s[i]];
  }

  class LegacyWindow {
    var nextNode: int
    var nextPin: int
    var nextLink: int
    var nodes: map<int, LNode>
    var pinToNode: map<int, int>
    var links: map<int, LLink>
    var displayNode: int
    var lastOutput: int

    function State(): Legacy
      reads this
    {
      Legacy(nextNode, nextPin, nextLink, nodes, pinToNode, links, displayNode, lastOutput)
    }

    /** `NodeWindow()`: the counters at zero and a display node added. */
    constructor (registry: map<string, EngineNodes.NodeData>)
      ensures State() == Added(Legacy(0, 0, 0, map[], map[], map[], -1, -1), "display", registry).(displayNode := 0)
    {
      nextNode, nextPin, nextLink := 0, 0, 0;
      nodes, pinToNode, links := map[], map[], map[];
      displayNode, lastOutput := -1, -1;
      new;
      var d := AddNode("display", registry);
      displayNode := d;
    }

    /** `next_pin_`. */
    method NextPin() returns (pin: int)
      modifies this
      ensures pin == old(nextPin) && State() == old(State()).(nextPin := pin + 1)
    {
      pin := nextPin;
      nextPin := nextPin + 1;
    }

    /** `_pins(count)`. */
    method Pins(count: int) returns (puts: set<int>)
      modifies this
      ensures State() == AddPins(old(State()), count)
      ensures puts == NodeGraph.Range(old(nextPin), nextPin)
    {
      ghost var g := State();
      puts := {};
      var i := 0;
      while i < count
        invariant 0 <= i && (count < 0 ==> i == 0) && (0 <= count ==> i <= count)
        invariant State() == AddPins(g, i) && puts == NodeGraph.Range(g.nextPin, nextPin)
      {
        var np := NextPin();
        puts := puts + {np};
        pinToNode := pinToNode[np := nextNode];
        i := i + 1;
      }
    }

    /** The start side of `_add_link`. */
    method LinkStartAt(id: int, start: int)
      modifies this
      ensures State() == LinkStart(old(State()), id, start)
    {
      if start in pinToNode && pinToNode[start] in nodes {
        var k := pinToNode[start];
        nodes := nodes[k := nodes[k].(links := nodes[k].links + [id])];
      }
    }

    /** The end side of `_add_link`, recording the id twice. */
    method LinkEndAt(id: int, end: int)
      modifies this
      ensures State() == LinkEnd(old(State()), id, end, true)
    {
      if end in pinToNode && pinToNode[end] in nodes {
        var k := pinToNode[end];
        nodes := nodes[k := nodes[k].(links := nodes[k].links + [id])];
        assert State() == Push(old(State()), k, id);
        if k == displayNode && |nodes[k].links| == |nodes[k].inputs| {
          var np := NextPin();
          nodes := nodes[k := nodes[k].(inputs := nodes[k].inputs + {np})];
          pinToNode := pinToNode[np := displayNode];
        }
        nodes := nodes[k := nodes[k].(links := nodes[k].links + [id])];
      }
    }

    /** `_add_link(start, end)`: the end node records the id twice. */
    method AddLink(start: int, end: int) returns (ret: int)
      modifies this
      ensures ret == old(nextLink)
      ensures State() == LinkedAsWritten(old(State()), start, end)
    {
      if nextLink !in links {
        links := links[nextLink := LLink(start, end)];
      }
      LinkStartAt(nextLink, start);
      LinkEndAt(nextLink, end);
      ret := nextLink;
      nextLink := nextLink + 1;
    }

    /** A link created in the editor: `_add_link`, then whether the graph
        needs rebuilding, which it does when the link ends at an input of
        the display node. */
    method CreateLink(start: int, end: int) returns (updated: bool)
      modifies this
      ensures State() == LinkedAsWritten(old(State()), start, end)
      ensures updated <==> displayNode in nodes && end in nodes[displayNode].inputs
    {
      var _ := AddLink(start, end);
      updated := displayNode in nodes && end in nodes[displayNode].inputs;
    }

    /** A link destroyed in the editor. */
    method DestroyLink(link: int)
      modifies this
      ensures State() == Unlinked(old(State()), link)
    {
      links := links - {link};
    }

    /** The node `_add_node(t)` builds, with its pins allocated. */
    method NewNodeAt(t: string, registry: map<string, EngineNodes.NodeData>) returns (node: LNode)
      modifies this
      ensures (State(), node) == NewNode(old(State()), t, registry)
    {
      node := LNode(t, "", {}, {}, [], false, false);
      if t in registry {
        var ins := Pins(registry[t].inputs);
        var outs := Pins(registry[t].outputs);
        node := LNode(registry[t].ntype, registry[t].displayName, ins, outs, [], true, false);
      } else if t == "display" {
        var ins := Pins(1);
        node := node.(inputs := ins);
      }
    }

    /** `_add_node(t)`: returns the id the node was stored under. */
    method AddNode(t: string, registry: map<string, EngineNodes.NodeData>) returns (ret: int)
      modifies this
      ensures ret == old(nextNode)
      ensures State() == Added(old(State()), t, registry)
    {
      ghost var g := State();
      ret := nextNode;
      var node := NewNodeAt(t, registry);
      EmplaceAt(node);
      assert State() == Emplaced(g, t, registry);
      LinkNewAt(node);
      lastOutput := if node.outputs == {} then -1 else NodeGraph.SetMin(node.outputs);
      nextNode := ret + 1;
    }

    /** Emplacing the new node under the node counter. */
    method EmplaceAt(node: LNode)
      modifies this
      ensures State() == old(State()).(nodes := if old(nextNode) in old(nodes) then old(nodes)
                                                else old(nodes)[old(nextNode) := node])
    {
      if nextNode !in nodes {
        nodes := nodes[nextNode := node];
      }
    }

    /** Linking the last added output into the new node's first input. */
    method LinkNewAt(node: LNode)
      modifies this
      ensures State() == LinkNew(old(State()), node)
    {
      if lastOutput != -1 && node.inputs != {} {
        var _ := AddLink(lastOutput, NodeGraph.SetMin(node.inputs));
      }
    }

    /** `add_input`. */
    method AddInput(registry: map<string, EngineNodes.NodeData>)
      modifies this
      ensures State() == InputAdded(old(State()), registry)
    {
      var g := State();
      var outs := NewNode(g, "ffmpeg", registry).1.outputs;
      var node := AddNode("ffmpeg", registry);
      if outs != {} && displayNode in nodes && nodes[displayNode].inputs != {} {
        var _ := AddLink(NodeGraph.SetMin(outs), NodeGraph.SetMax(nodes[displayNode].inputs));
      }
    }

    /** Erasing each of the given link ids from `_links`. */
    method EraseLinks(ids: seq<int>)
      modifies this
      ensures State() == old(State()).(links := old(links) - Elems(ids))
    {
      var i := 0;
      while i < |ids|
        invariant 0 <= i <= |ids|
        invariant State() == old(State()).(links := links)
        invariant links == old(links) - Elems(ids[..i])
      {
        ElemsSnoc(ids, i);
        links := links - {ids[i]};
        i := i + 1;
      }
      assert ids[..i] == ids;
    }

    /** Erasing each of the given pins from `_pin_to_node`. */
    method ErasePins(ps: seq<int>)
      modifies this
      ensures State() == old(State()).(pinToNode := old(pinToNode) - Elems(ps))
    {
      var i := 0;
      while i < |ps|
        invariant 0 <= i <= |ps|
        invariant State() == old(State()).(pinToNode := pinToNode)
        invariant pinToNode == old(pinToNode) - Elems(ps[..i])
      {
        ElemsSnoc(ps, i);
        pinToNode := pinToNode - {ps[i]};
        i := i + 1;
      }
      assert ps[..i] == ps;
    }

    /** Deleting the hovered node `k` on a middle click: the last added
        output is reset when it equals the node id; then the node's links,
        its input and output pins and the node are erased. */
    method DeleteNode(k: int)
      modifies this
      ensures State() == DeletedAsWritten(old(State()), k)
    {
      if lastOutput == k {
        lastOutput := -1;
      }
      if k !in nodes {
        return;
      }
      var n := nodes[k];
      ghost var g1 := State();
      EraseLinks(n.links);
      var ins := NodeGraph.Sorted(n.inputs);
      ErasePins(ins);
      var outs := NodeGraph.Sorted(n.outputs);
      ErasePins(outs);
      assert Elems(ins) == n.inputs && Elems(outs) == n.outputs;
      assert Elems(n.links) == set id | id in n.links;
      assert pinToNode == g1.pinToNode - n.inputs - n.outputs;
      nodes := nodes - {k};
    }

    /** The inner walk of `build_nodes` over node `k`'s link list: the nodes
        it queues, in order. */
    method ScanLinks(k: int) returns (queued: seq<int>)
      requires k in nodes
      ensures queued == Sources(State(), k, nodes[k].links)
    {
      var ls := nodes[k].links;
      queued := [];
      var i := 0;
      while i < |ls|
        invariant 0 <= i <= |ls|
        invariant queued == Sources(State(), k, ls[..i])
      {
        assert ls[..i + 1][..i] == ls[..i];
        var id := ls[i];
        if id in links && links[id].end in nodes[k].inputs && links[id].start in pinToNode {
          queued := queued + [pinToNode[links[id].start]];
        }
        i := i + 1;
      }
      assert ls[..i] == ls;
    }
  }
}
