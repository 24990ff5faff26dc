// What `NodeWindow::load` and `NodeWindow::save` (src/ui/node_window.cpp) do
// with the graph state, as functions of the data read or written. The
// counters are recomputed past every id in use, and the link indexes of a
// file written before nodes carried them are rebuilt from the links.
// `NodeWindows.NodeWindow.Load` and `Save` perform the same steps in place.
module NodeLoad {
  import opened Wrappers
  import opened NodeGraph
  import opened FakeNodes
  import opened Parameters
  import EngineNodes
  import Serialise

  /** The saved parameter groups of each node with a stand-in. */
  type SaveMap = map<int, map<string, map<string, Parameter>>>

  /** The members of `SerialiseGraph` the editor state is made of; ImGui
      positions, the link-removal modifier and the open node windows are
      not part of this model. */
  datatype GraphData = GraphData(id: int, windowName: string, nextNode: int, nextPin: int, nextLink: int,
                                 nodes: map<int, Node>, pinToNode: map<int, int>, links: map<int, NodeGraph.Link>,
                                 displayNode: int, lastOutput: int, saveMap: SaveMap)

  // ---------------------------------------------------------------------
  // Counters

  /** The counter `load` leaves after raising `c` to `k + 1` for every key
      `k` of a map: one past the largest key when that is above `c`, else
      `c`. */
  function Past(c: int, ks: set<int>): int
  {
    if ks == {} then c
    else if c < SetMax(ks) + 1 then SetMax(ks) + 1
    else c
  }

  /** Every id of `ks` lies below `x`. */
  predicate Above(x: int, ks: set<int>)
  {
    forall k :: k in ks ==> k < x
  }

  /** The recomputed counter is the least value that is not below the saved
      counter and lies above every id in use. */
  lemma PastIsLeast(c: int, ks: set<int>)
    ensures c <= Past(c, ks) && Above(Past(c, ks), ks)
    ensures forall x :: c <= x && Above(x, ks) ==> Past(c, ks) <= x
  {
    if ks != {} {
      var m := SetMax(ks);
      forall x | c <= x && Above(x, ks)
        ensures Past(c, ks) <= x
      {
        assert m in ks;
      }
    }
  }


  /** Visiting one more id, in any order, raises the counter past it. */
  lemma PastAdd(c: int, ks: set<int>, k: int)
    ensures Past(c, ks + {k}) == if Past(c, ks) < k + 1 then k + 1 else Past(c, ks)
  {
    if ks != {} {
      var m := SetMax(ks);
      assert SetMax(ks + {k}) == if m < k then k else m by {
        assert m in ks + {k};
      }
    }
  }

  // ---------------------------------------------------------------------
  // Stand-in nodes

  /** The stand-in node of every node. */
  function FakesOf(nodes: map<int, Node>): map<int, Option<FakeNode>>
  {
    map k | k in nodes :: nodes[k].fake
  }

  /** The nodes with the given stand-ins. */
  function WithFakes(nodes: map<int, Node>, fakes: map<int, Option<FakeNode>>): map<int, Node>
  {
    map k | k in nodes :: nodes[k].(fake := if k in fakes then fakes[k] else nodes[k].fake)
  }

  /** The stand-in `load` gives node `k`, read as `n`: none for the
      display node, which keeps what it had; for any other node a stand-in
      named after the node's id and display name, of the node's type, with
      the parameters saved for it, if any. */
  predicate StandIn(k: int, n: Node, fake: Option<FakeNode>, saveMap: SaveMap)
    reads if fake.Some? then {fake.value} else {}
  {
    if n.ntype == "display" then fake == n.fake
    else fake.Some? && Names(k, n, fake.value) && fake.value.paramMap == Saved(saveMap, k)
  }

  /** The parameters saved for node `k`, none if nothing was saved. */
  function Saved(saveMap: SaveMap, k: int): map<string, map<string, Parameter>>
  {
    if k in saveMap then saveMap[k] else map[]
  }

  /** The stand-in `f` is named after node `k`, read as `n`, and has its type. */
  predicate Names(k: int, n: Node, f: FakeNode)
  {
    f.uiId == k && f.nodeName == NodeName(k, n.displayName) && f.nodeType == n.ntype
  }

  /** Every node of `nodes` holds in `fakes` the stand-in `load` gives it. */
  predicate StandInsGiven(nodes: map<int, Node>, fakes: map<int, Option<FakeNode>>, saveMap: SaveMap)
    reads set k | k in fakes && fakes[k].Some? :: fakes[k].value
  {
    forall k :: k in nodes ==> k in fakes && StandIn(k, nodes[k], fakes[k], saveMap)
  }

  /** What `save` collects in `save_map`: the parameters of every node with
      a stand-in, among the nodes `ks`. */
  function SaveMapOf(nodes: map<int, Node>, ks: set<int>): SaveMap
    reads set k | k in nodes && nodes[k].fake.Some? :: nodes[k].fake.value
  {
    map k | k in ks && k in nodes && nodes[k].fake.Some? :: nodes[k].fake.value.paramMap
  }

  /** Adding a node to those collected adds its parameters when it has a
      stand-in, and nothing otherwise. */
  lemma SaveMapOfAdd(nodes: map<int, Node>, ks: set<int>, k: int)
    requires k in nodes
    ensures SaveMapOf(nodes, ks + {k}) == if nodes[k].fake.Some? then SaveMapOf(nodes, ks)[k := nodes[k].fake.value.paramMap]
                                         else SaveMapOf(nodes, ks)
  {
  }

  /** Some node asks for the link indexes to be rebuilt. */
  predicate NeedsRebuild(nodes: map<int, Node>)
  {
    exists k :: k in nodes && nodes[k].rebuildLinks
  }

  /** Some node among `ks` asks for the link indexes to be rebuilt. */
  predicate RebuildAmong(nodes: map<int, Node>, ks: set<int>)
  {
    exists k :: k in ks && k in nodes && nodes[k].rebuildLinks
  }

  /** The flag the node loop of `load` accumulates: adding a node adds its
      request, and over every node it is `NeedsRebuild`. */
  lemma RebuildAmongAdd(nodes: map<int, Node>, ks: set<int>, k: int)
    requires k in nodes
    ensures RebuildAmong(nodes, ks + {k}) == (RebuildAmong(nodes, ks) || nodes[k].rebuildLinks)
  {
  }

  lemma RebuildAmongEnds(nodes: map<int, Node>)
    ensures RebuildAmong(nodes, nodes.Keys) == NeedsRebuild(nodes)
    ensures !RebuildAmong(nodes, {})
  {
  }




  /** One step of the node loop of `load`. */
  lemma StandInsStep(n0: map<int, Node>, c0: int, done: set<int>, rest: set<int>, fakes: map<int, Option<FakeNode>>,
                     c: int, rebuild: bool, k: int, f: Option<FakeNode>)
    requires done + rest == n0.Keys && fakes.Keys == done && k in rest
    requires c == Past(c0, done) && rebuild == RebuildAmong(n0, done)
    ensures (done + {k}) + (rest - {k}) == n0.Keys && fakes[k := f].Keys == done + {k} && k in n0
    ensures (if c < k + 1 then k + 1 else c) == Past(c0, done + {k})
    ensures (rebuild || n0[k].rebuildLinks) == RebuildAmong(n0, done + {k})
  {
    PastAdd(c0, done, k);
    RebuildAmongAdd(n0, done, k);
  }

  /** Every stand-in of `fakes` is the one `load` gives its node, as far
      as names and type go. */
  predicate NamedAll(nodes: map<int, Node>, fakes: map<int, Option<FakeNode>>)
  {
    forall j :: j in fakes ==>
      j in nodes && (if nodes[j].ntype == "display" then fakes[j] == nodes[j].fake
                     else fakes[j].Some? && Names(j, nodes[j], fakes[j].value))
  }

  /** Giving node `k` the stand-in `load` gives it keeps every stand-in named. */
  lemma NamedAllAdd(nodes: map<int, Node>, fakes: map<int, Option<FakeNode>>, k: int, f: Option<FakeNode>)
    requires NamedAll(nodes, fakes) && k in nodes
    requires if nodes[k].ntype == "display" then f == nodes[k].fake else f.Some? && Names(k, nodes[k], f.value)
    ensures NamedAll(nodes, fakes[k := f])
  {
  }

  /** Stand-ins given to every node are what the nodes then hold. */
  lemma WithFakesAll(nodes: map<int, Node>, fakes: map<int, Option<FakeNode>>)
    requires fakes.Keys == nodes.Keys
    ensures FakesOf(WithFakes(nodes, fakes)) == fakes
    ensures WithFakes(nodes, fakes) == WithFakes(nodes, FakesOf(WithFakes(nodes, fakes)))
    ensures forall k :: k in nodes ==> k in WithFakes(nodes, fakes) && WithFakes(nodes, fakes)[k].fake == fakes[k]
  {
  }

  /** Stand-ins that are named after their nodes and hold the saved
      parameters are the ones `load` gives. */
  lemma StandInsAll(nodes: map<int, Node>, fakes: map<int, Option<FakeNode>>, saveMap: SaveMap)
    requires fakes.Keys == nodes.Keys && NamedAll(nodes, fakes)
    requires forall j :: j in fakes && j in nodes && nodes[j].ntype != "display" && fakes[j].Some? ==>
               fakes[j].value.paramMap == Saved(saveMap, j)
    ensures StandInsGiven(nodes, fakes, saveMap)
  {
  }

  // ---------------------------------------------------------------------
  // Rebuilding the link indexes

  /** The end side of the rebuild: the owner of `end` records the link,
      replacing whatever link it recorded into that pin. */
  function RecordEnd(g: Editor, id: int, end: int): (r: Editor)
    ensures r.nodes.Keys == g.nodes.Keys && r == g.(nodes := r.nodes)
  {
    match Owner(g, end)
    case Some(k) => g.(nodes := g.nodes[k := AttachEnd(g.nodes[k], id, end)])
    case None => g
  }

  /** One link of the rebuild: the owners of its two pins record it. */
  function RebuildStep(g: Editor, id: int): (r: Editor)
    requires id in g.links
    ensures r.nodes.Keys == g.nodes.Keys && r == g.(nodes := r.nodes)
    ensures forall k :: k in g.nodes ==> r.nodes[k].ntype == g.nodes[k].ntype && r.nodes[k].fake == g.nodes[k].fake
  {
    RecordEnd(LinkStart(g, id, g.links[id].start), id, g.links[id].end)
  }

  /** The rebuild over the links `ids`, in order. */
  function Rebuilt(g: Editor, ids: seq<int>): (r: Editor)
    requires forall i :: 0 <= i < |ids| ==> ids[i] in g.links
    ensures r.nodes.Keys == g.nodes.Keys && r == g.(nodes := r.nodes)
    ensures forall k :: k in g.nodes ==> r.nodes[k].ntype == g.nodes[k].ntype && r.nodes[k].fake == g.nodes[k].fake
    decreases |ids|
  {
    if ids == [] then g else RebuildStep(Rebuilt(g, ids[..|ids| - 1]), ids[|ids| - 1])
  }

  /** The rebuild over the set of links `ids`, in ascending id order, as
      `load` walks `_links`: the largest id is rebuilt last. */
  function RebuiltOver(g: Editor, ids: set<int>): (r: Editor)
    requires ids <= g.links.Keys
    ensures r == g.(nodes := r.nodes)
    decreases |ids|
  {
    if ids == {} then g
    else RebuildStep(RebuiltOver(g, ids - {SetMax(ids)}), SetMax(ids))
  }

  /** Rebuilding one more link, with a larger id than those rebuilt, is
      one more step. */
  lemma RebuiltAdd(g: Editor, ids: set<int>, k: int)
    requires ids <= g.links.Keys && k in g.links
    requires forall x :: x in ids ==> x < k
    ensures RebuiltOver(g, ids + {k}) == RebuildStep(RebuiltOver(g, ids), k)
  {
    assert SetMax(ids + {k}) == k;
    assert (ids + {k}) - {k} == ids;
  }

  /** The set form of the rebuild is the rebuild over the ids in ascending
      order. */
  lemma {:induction false} RebuiltOverSorted(g: Editor, ids: set<int>)
    requires ids <= g.links.Keys
    ensures forall i :: 0 <= i < |Sorted(ids)| ==> Sorted(ids)[i] in g.links
    ensures RebuiltOver(g, ids) == Rebuilt(g, Sorted(ids))
    decreases |ids|
  {
    if ids != {} {
      var m := SetMax(ids);
      var rest := ids - {m};
      assert rest + {m} == ids && forall x :: x in rest ==> x < m;
      RebuiltOverSorted(g, rest);
      var t := Sorted(rest);
      assert Sorted(ids) == t + [m] by {
        SortedAdd(rest, m);
      }
      assert RebuiltOver(g, ids) == RebuildStep(RebuiltOver(g, rest), m);
      RebuiltSnoc(g, t, m);
    }
  }

  lemma RebuiltSnoc(g: Editor, t: seq<int>, k: int)
    requires forall i :: 0 <= i < |t| ==> t[i] in g.links
    requires k in g.links
    ensures forall i :: 0 <= i < |t + [k]| ==> (t + [k])[i] in g.links
    ensures Rebuilt(g, t + [k]) == RebuildStep(Rebuilt(g, t), k)
  {
    SnocParts(t, k);
  }

  /** One step of the rebuild loop: the least link id left is rebuilt. */
  lemma RebuiltStepOver(g: Editor, done: set<int>, rest: set<int>)
    requires rest != {} && Precedes(done, rest) && done + rest <= g.links.Keys
    ensures var k := SetMin(rest);
      Precedes(done + {k}, rest - {k}) && (done + {k}) + (rest - {k}) == done + rest &&
      RebuiltOver(g, done + {k}) == RebuildStep(RebuiltOver(g, done), k)
  {
    var k := SetMin(rest);
    assert Precedes(done + {k}, rest - {k}) && (done + {k}) + (rest - {k}) == done + rest &&
           (forall x :: x in done ==> x < k) by {
      PrecedesMin(done, rest);
    }
    RebuiltAdd(g, done, k);
  }

  /** Node `b` records every link `a` records, in the same pins, except
      the link into pin `e`. */
  predicate Grows(a: Node, b: Node, e: int)
  {
    a.linkToPin.Keys <= b.linkToPin.Keys &&
    (forall p :: p in a.outPinToLinks ==> OutLinks(a, p) <= OutLinks(b, p)) &&
    (forall p :: p in a.inPinToLink && p != e ==> p in b.inPinToLink && b.inPinToLink[p] == a.inPinToLink[p])
  }

  lemma RecordEndAt(g: Editor, id: int, pin: int, k: int)
    requires k in g.nodes
    ensures RecordEnd(g, id, pin).nodes[k] ==
              if Owner(g, pin) == Some(k) then AttachEnd(g.nodes[k], id, pin) else g.nodes[k]
  {
  }

  /** A rebuild step only adds to what each node records, but for the pin
      the link ends at. */
  lemma StepGrows(g: Editor, x: int, k: int)
    requires x in g.links && k in g.nodes
    ensures Grows(g.nodes[k], RebuildStep(g, x).nodes[k], g.links[x].end)
  {
    var s := g.links[x].start;
    var e := g.links[x].end;
    var g1 := LinkStart(g, x, s);
    LinkStartAt(g, x, s, k);
    RecordEndAt(g1, x, e, k);
    var a := g.nodes[k];
    var b := g1.nodes[k];
    var c := RebuildStep(g, x).nodes[k];
    assert forall p :: OutLinks(a, p) <= OutLinks(b, p);
    assert forall p :: OutLinks(b, p) == OutLinks(c, p);
  }

  /** The owner of a pin is the same before and after a change of node
      contents only. */
  lemma SameOwners(g: Editor, r: Editor)
    requires r == g.(nodes := r.nodes) && r.nodes.Keys == g.nodes.Keys
    ensures forall p :: Owner(r, p) == Owner(g, p)
  {
  }

  /** A rebuild step keeps the records of other links, except that a link
      into the same pin takes over that pin. */
  lemma StepKeepsRecords(g: Editor, x: int, id: int)
    requires id in g.links && x in g.links
    ensures StartRecorded(g, id) ==> StartRecorded(RebuildStep(g, x), id)
    ensures EndRecorded(g, id) && g.links[x].end != g.links[id].end ==> EndRecorded(RebuildStep(g, x), id)
  {
    var r := RebuildStep(g, x);
    SameOwners(g, r);
    var s := g.links[id].start;
    var e := g.links[id].end;
    if Owner(g, s).Some? {
      StepGrows(g, x, Owner(g, s).value);
    }
    if Owner(g, e).Some? {
      StepGrows(g, x, Owner(g, e).value);
    }
  }

  /** A rebuild step records its own link at both ends. */
  lemma StepRecordsOwn(g: Editor, x: int)
    requires x in g.links
    ensures StartRecorded(RebuildStep(g, x), x) && EndRecorded(RebuildStep(g, x), x)
  {
    var s := g.links[x].start;
    var e := g.links[x].end;
    var g1 := LinkStart(g, x, s);
    var r := RebuildStep(g, x);
    SameOwners(g, g1);
    SameOwners(g, r);
    if Owner(g, s).Some? {
      var k := Owner(g, s).value;
      LinkStartAt(g, x, s, k);
      RecordEndAt(g1, x, e, k);
      assert x in OutLinks(g1.nodes[k], s);
    }
    if Owner(g, e).Some? {
      RecordEndAt(g1, x, e, Owner(g, e).value);
    }
  }

  /** No later link of `ids` ends at the pin `ids[j]` ends at. */
  predicate LastInto(g: Editor, ids: seq<int>, j: int)
    requires 0 <= j < |ids| && forall i :: 0 <= i < |ids| ==> ids[i] in g.links
  {
    forall i :: j < i < |ids| ==> g.links[ids[i]].end != g.links[ids[j]].end
  }

  /** After the rebuild every link is recorded by the owner of its start
      pin, and by the owner of its end pin when no later link ends there. */
  lemma {:induction false} RebuiltRecords(g: Editor, ids: seq<int>)
    requires forall i :: 0 <= i < |ids| ==> ids[i] in g.links
    ensures forall j :: 0 <= j < |ids| ==> StartRecorded(Rebuilt(g, ids), ids[j])
    ensures forall j :: 0 <= j < |ids| && LastInto(g, ids, j) ==> EndRecorded(Rebuilt(g, ids), ids[j])
    decreases |ids|
  {
    if ids != [] {
      var p := ids[..|ids| - 1];
      var x := ids[|ids| - 1];
      RebuiltRecords(g, p);
      var gp := Rebuilt(g, p);
      forall j | 0 <= j < |ids|
        ensures StartRecorded(Rebuilt(g, ids), ids[j])
        ensures LastInto(g, ids, j) ==> EndRecorded(Rebuilt(g, ids), ids[j])
      {
        StepKeepsRecords(gp, x, ids[j]);
        StepRecordsOwn(gp, x);
        if j < |p| {
          assert ids[j] == p[j];
          if LastInto(g, ids, j) {
            assert LastInto(g, p, j);
          }
        }
      }
    }
  }

  /** Whether a node of type `t` grows its inputs after a load: a
      registered type with an input count of -1, or the display node. */
  function Extendable(t: string, registry: map<string, EngineNodes.NodeData>): bool
  {
    if t in registry then registry[t].inputs == -1 else t == "display"
  }

  /** The nodes with the flags of those outside `rest` reset: the state of
      the flag loop while the ids of `rest` are still to come. */
  function ResetExcept(nodes: map<int, Node>, registry: map<string, EngineNodes.NodeData>, rest: set<int>): map<int, Node>
  {
    map k | k in nodes :: if k in rest then nodes[k] else nodes[k].(extendable := Extendable(nodes[k].ntype, registry))
  }

  /** One step of the flag loop resets one more node. */
  lemma ResetExceptStep(g: Editor, registry: map<string, EngineNodes.NodeData>, rest: set<int>, k: int)
    requires k in rest && k in g.nodes
    ensures ResetExcept(g.nodes, registry, rest - {k}) ==
            ResetExcept(g.nodes, registry, rest)[k := g.nodes[k].(extendable := Extendable(g.nodes[k].ntype, registry))]
  {
  }

  /** With nothing left, every flag is reset. */
  lemma ResetExceptNone(g: Editor, registry: map<string, EngineNodes.NodeData>)
    ensures ResetExcept(g.nodes, registry, {}) == Reset(g, registry).nodes
  {
  }

  /** The reset of every node's extendable flag after a rebuild. */
  function Reset(g: Editor, registry: map<string, EngineNodes.NodeData>): (r: Editor)
    ensures r.nodes.Keys == g.nodes.Keys && r == g.(nodes := r.nodes)
    ensures forall k :: k in g.nodes ==> r.nodes[k].fake == g.nodes[k].fake
  {
    g.(nodes := map k | k in g.nodes :: g.nodes[k].(extendable := Extendable(g.nodes[k].ntype, registry)))
  }

  /** The reset gives every node the flag `_add_node` gave it, for a
      registry that files each type under its own name. */
  lemma ExtendableAsAdded(g: Editor, t: string, registry: map<string, EngineNodes.NodeData>, made: Option<FakeNode>)
    requires t in registry ==> registry[t].ntype == t
    ensures var n := NewNode(g, t, registry, made).1;
      n.ntype == t && n.extendable == Extendable(t, registry)
  {
  }

  // ---------------------------------------------------------------------
  // Load and save

  /** The state the fields read give, once every node has its stand-in and
      the node counter has passed every node id. */
  function Copied(d: GraphData, fakes: map<int, Option<FakeNode>>): Editor
  {
    Editor(Past(d.nextNode, d.nodes.Keys), d.nextPin, d.nextLink, WithFakes(d.nodes, fakes),
           d.pinToNode, d.links, d.displayNode, d.lastOutput)
  }

  /** The link indexes rebuilt in link id order, then the extendable flags
      reset. */
  function RebuiltState(d: GraphData, registry: map<string, EngineNodes.NodeData>,
                        fakes: map<int, Option<FakeNode>>): (r: Editor)
    ensures r == Copied(d, fakes).(nodes := r.nodes) && r.nodes.Keys == d.nodes.Keys
  {
    Reset(Rebuilt(Copied(d, fakes), Sorted(d.links.Keys)), registry)
  }

  /** The editor state `load` leaves for the data read, with `fakes` the
      stand-in nodes it creates: node ids advance the node counter; when a
      node asks for it the link indexes are rebuilt and the extendable flags
      reset; then link ids advance the link counter and known pins the pin
      counter. */
  function Loaded(d: GraphData, registry: map<string, EngineNodes.NodeData>,
                  fakes: map<int, Option<FakeNode>>): (r: Editor)
    ensures r == Copied(d, fakes).(nodes := r.nodes, nextLink := r.nextLink, nextPin := r.nextPin)
    ensures r.nodes.Keys == d.nodes.Keys
  {
    var g1 := if NeedsRebuild(d.nodes) then RebuiltState(d, registry, fakes) else Copied(d, fakes);
    g1.(nextLink := Past(d.nextLink, d.links.Keys), nextPin := Past(d.nextPin, d.pinToNode.Keys))
  }

  /** What `load` does once the stand-ins are made: with `rebuild` set,
      the link indexes rebuilt in link id order and the extendable flags
      reset; then link ids advance the link counter and known pins the pin
      counter. */
  function Finished(g: Editor, registry: map<string, EngineNodes.NodeData>, rebuild: bool): (r: Editor)
    ensures r == g.(nodes := r.nodes, nextLink := r.nextLink, nextPin := r.nextPin)
    ensures r.nodes.Keys == g.nodes.Keys && forall k :: k in g.nodes ==> r.nodes[k].fake == g.nodes[k].fake
  {
    var g1 := if rebuild then Reset(Rebuilt(g, Sorted(g.links.Keys)), registry) else g;
    g1.(nextLink := Past(g1.nextLink, g1.links.Keys), nextPin := Past(g1.nextPin, g1.pinToNode.Keys))
  }

  /** A load is the copy of the data read, with stand-ins, finished. */
  lemma LoadedFinished(d: GraphData, registry: map<string, EngineNodes.NodeData>, fakes: map<int, Option<FakeNode>>)
    ensures Loaded(d, registry, fakes) == Finished(Copied(d, fakes), registry, NeedsRebuild(d.nodes))
  {
  }

  /** After a load every node read holds the stand-in it was given. */
  lemma LoadedFakes(d: GraphData, registry: map<string, EngineNodes.NodeData>, fakes: map<int, Option<FakeNode>>)
    requires fakes.Keys == d.nodes.Keys
    ensures var r := Loaded(d, registry, fakes);
      FakesOf(r.nodes) == fakes && forall k :: k in d.nodes ==> k in r.nodes && r.nodes[k].fake == fakes[k]
  {
  }

  /** After a load the maps are the ones read, every node id, link id and
      known pin lies below its counter, and no counter moved back. */
  lemma LoadedCountersPast(d: GraphData, registry: map<string, EngineNodes.NodeData>,
                           fakes: map<int, Option<FakeNode>>)
    ensures var r := Loaded(d, registry, fakes);
      r.nodes.Keys == d.nodes.Keys && r.links == d.links && r.pinToNode == d.pinToNode &&
      d.nextNode <= r.nextNode && d.nextLink <= r.nextLink && d.nextPin <= r.nextPin &&
      (forall k :: k in r.nodes ==> k < r.nextNode) && LinkIdsAhead(r) &&
      (forall p :: p in r.pinToNode ==> p < r.nextPin) &&
      r.displayNode == d.displayNode && r.lastOutput == d.lastOutput
  {
    PastIsLeast(d.nextNode, d.nodes.Keys);
    PastIsLeast(d.nextLink, d.links.Keys);
    PastIsLeast(d.nextPin, d.pinToNode.Keys);
  }

  /** When no node asks for a rebuild, the nodes are the ones read, with
      their new stand-ins. */
  lemma LoadedKeepsIndexes(d: GraphData, registry: map<string, EngineNodes.NodeData>,
                           fakes: map<int, Option<FakeNode>>)
    requires !NeedsRebuild(d.nodes)
    ensures Loaded(d, registry, fakes) ==
            Editor(Past(d.nextNode, d.nodes.Keys), Past(d.nextPin, d.pinToNode.Keys), Past(d.nextLink, d.links.Keys),
                   WithFakes(d.nodes, fakes), d.pinToNode, d.links, d.displayNode, d.lastOutput)
  {
  }

  /** No link with a larger id ends where link `id` ends. */
  predicate LastLinkInto(links: map<int, NodeGraph.Link>, id: int)
    requires id in links
  {
    forall l :: l in links && l > id ==> links[l].end != links[id].end
  }

  /** The reset of the extendable flags keeps every record. */
  lemma ResetKeepsRecords(g: Editor, registry: map<string, EngineNodes.NodeData>, id: int)
    requires id in g.links
    ensures StartRecorded(g, id) ==> StartRecorded(Reset(g, registry), id)
    ensures EndRecorded(g, id) ==> EndRecorded(Reset(g, registry), id)
  {
    SameOwners(g, Reset(g, registry));
  }

  /** The counters play no part in what a node records. */
  lemma CountersKeepRecords(g: Editor, nl: int, np: int, id: int)
    requires id in g.links
    ensures StartRecorded(g, id) ==> StartRecorded(g.(nextLink := nl, nextPin := np), id)
    ensures EndRecorded(g, id) ==> EndRecorded(g.(nextLink := nl, nextPin := np), id)
  {
    assert forall p :: Owner(g.(nextLink := nl, nextPin := np), p) == Owner(g, p);
  }

  /** The rebuild over the links in id order records a link at its end
      when no link with a larger id ends at the same pin. */
  lemma RebuiltInOrder(g: Editor, id: int)
    requires id in g.links
    ensures StartRecorded(Rebuilt(g, Sorted(g.links.Keys)), id)
    ensures LastLinkInto(g.links, id) ==> EndRecorded(Rebuilt(g, Sorted(g.links.Keys)), id)
  {
    var ids := Sorted(g.links.Keys);
    var j :| 0 <= j < |ids| && ids[j] == id;
    RebuiltRecords(g, ids);
    if LastLinkInto(g.links, id) {
      assert LastInto(g, ids, j) by {
        forall i | j < i < |ids|
          ensures g.links[ids[i]].end != g.links[ids[j]].end
        {
          assert ids[i] > id;
        }
      }
    }
  }

  /** A rebuild records every link at the owner of its start pin and, when
      no link with a larger id ends at the same pin, at the owner of its end
      pin. */
  lemma LoadedRebuildsLinks(d: GraphData, registry: map<string, EngineNodes.NodeData>,
                            fakes: map<int, Option<FakeNode>>, id: int)
    requires NeedsRebuild(d.nodes) && id in d.links
    ensures StartRecorded(Loaded(d, registry, fakes), id)
    ensures LastLinkInto(d.links, id) ==> EndRecorded(Loaded(d, registry, fakes), id)
  {
    var g0 := Copied(d, fakes);
    var gr := Rebuilt(g0, Sorted(d.links.Keys));
    var gs := RebuiltState(d, registry, fakes);
    RebuiltInOrder(g0, id);
    ResetKeepsRecords(gr, registry, id);
    CountersKeepRecords(gs, Past(d.nextLink, d.links.Keys), Past(d.nextPin, d.pinToNode.Keys), id);
  }

  /** After a rebuild every node's extendable flag follows its type. */
  lemma LoadedResetsExtendable(d: GraphData, registry: map<string, EngineNodes.NodeData>,
                               fakes: map<int, Option<FakeNode>>, k: int)
    requires NeedsRebuild(d.nodes) && k in d.nodes
    ensures Loaded(d, registry, fakes).nodes[k].extendable == Extendable(d.nodes[k].ntype, registry)
  {
  }

  /** `SerialiseGraph` as `save` fills it from the editor state. */
  function SavedData(g: Editor, id: int, windowName: string, saveMap: SaveMap): GraphData
  {
    GraphData(id, windowName, g.nextNode, g.nextPin, g.nextLink, g.nodes, g.pinToNode, g.links,
              g.displayNode, g.lastOutput, saveMap)
  }

  /** What reading the archive back gives: each node as it survives
      `Node::serialize` at the version nodes are written with. */
  function ReadBack(d: GraphData): GraphData
  {
    d.(nodes := map k | k in d.nodes :: Serialise.Kept(d.nodes[k]))
  }

  /** The nodes read back are the ones decoding each saved node gives. */
  lemma ReadBackDecodes(d: GraphData, k: int)
    requires k in d.nodes
    ensures Serialise.DecodeNode(Serialise.EncodeNode(d.nodes[k], Serialise.NodeVersion), Serialise.NodeVersion) ==
            Some((ReadBack(d).nodes[k], []))
  {
    Serialise.NodeRoundTrip(d.nodes[k], Serialise.NodeVersion, []);
    assert Serialise.EncodeNode(d.nodes[k], Serialise.NodeVersion) + [] ==
           Serialise.EncodeNode(d.nodes[k], Serialise.NodeVersion);
  }

  /** A counter already past every id does not move. */
  lemma PastUnmoved(c: int, ks: set<int>)
    requires Above(c, ks)
    ensures Past(c, ks) == c
  {
    PastIsLeast(c, ks);
  }

  /** Nodes read back and given their stand-ins are the saved nodes with
      those stand-ins and no pending rebuild. */
  lemma WithFakesOfKept(nodes: map<int, Node>, fakes: map<int, Option<FakeNode>>)
    requires fakes.Keys == nodes.Keys
    ensures WithFakes(map k | k in nodes :: Serialise.Kept(nodes[k]), fakes) ==
            map k | k in nodes :: nodes[k].(fake := fakes[k], rebuildLinks := false)
  {
    var a := WithFakes(map k | k in nodes :: Serialise.Kept(nodes[k]), fakes);
    var b := map k | k in nodes :: nodes[k].(fake := fakes[k], rebuildLinks := false);
    assert a.Keys == b.Keys;
    forall k | k in a
      ensures a[k] == b[k]
    {
    }
  }

  /** In a valid editor state every counter is past the ids it hands out. */
  lemma ValidCountersAbove(g: Editor)
    requires Valid(g)
    ensures Above(g.nextNode, g.nodes.Keys) && Above(g.nextLink, g.links.Keys) && Above(g.nextPin, g.pinToNode.Keys)
  {
  }

  /** Saving an editor state whose counters are past its ids, as in every
      valid state, and loading it back gives the same state, with new
      stand-ins and no pending rebuild: nothing is rebuilt and no counter
      moves. */
  lemma SaveLoadRoundTrip(g: Editor, id: int, windowName: string, saveMap: SaveMap,
                          registry: map<string, EngineNodes.NodeData>, fakes: map<int, Option<FakeNode>>)
    requires Above(g.nextNode, g.nodes.Keys) && Above(g.nextLink, g.links.Keys) && Above(g.nextPin, g.pinToNode.Keys)
    requires fakes.Keys == g.nodes.Keys
    ensures Loaded(ReadBack(SavedData(g, id, windowName, saveMap)), registry, fakes) ==
            g.(nodes := map k | k in g.nodes :: g.nodes[k].(fake := fakes[k], rebuildLinks := false))
  {
    var d := ReadBack(SavedData(g, id, windowName, saveMap));
    var nodes := map k | k in g.nodes :: g.nodes[k].(fake := fakes[k], rebuildLinks := false);
    assert d.nodes.Keys == g.nodes.Keys;
    assert Past(d.nextNode, d.nodes.Keys) == g.nextNode by {
      PastUnmoved(g.nextNode, g.nodes.Keys);
    }
    assert Past(d.nextLink, d.links.Keys) == g.nextLink by {
      PastUnmoved(g.nextLink, g.links.Keys);
    }
    assert Past(d.nextPin, d.pinToNode.Keys) == g.nextPin by {
      PastUnmoved(g.nextPin, g.pinToNode.Keys);
    }
    assert WithFakes(d.nodes, fakes) == nodes by {
      WithFakesOfKept(g.nodes, fakes);
    }
    assert Loaded(d, registry, fakes) ==
           Editor(Past(d.nextNode, d.nodes.Keys), Past(d.nextPin, d.pinToNode.Keys), Past(d.nextLink, d.links.Keys),
                  WithFakes(d.nodes, fakes), d.pinToNode, d.links, d.displayNode, d.lastOutput) by {
      assert !NeedsRebuild(d.nodes);
      LoadedKeepsIndexes(d, registry, fakes);
    }
  }
}
