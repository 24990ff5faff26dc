// The node editor's graph state (src/ui/node_window.cpp, src/ui/node_window.hpp)
// as values: nodes by id, links by id, the owner of every pin, the id
// counters, and the per-node link indexes. Each editor operation is a
// function from state to state here; `NodeWindows.NodeWindow` performs the
// same steps in place and is proved equal to these functions. The invariant
// `Core` is what those operations keep.
module NodeGraph {
  import opened Wrappers
  import opened FakeNodes
  import EngineNodes

  /** `Link`: the output pin it starts at and the input pin it ends at. */
  datatype Link = Link(start: int, end: int)

  /** `Node`: its type and display name, its input and output pins, which
      pin each of its links uses, the link into each linked input pin, the
      links out of each output pin, whether its inputs grow, and its
      stand-in node. */
  datatype Node = Node(ntype: string, displayName: string, inputs: set<int>, outputs: set<int>,
                       linkToPin: map<int, int>, inPinToLink: map<int, int>,
                       outPinToLinks: map<int, set<int>>, extendable: bool,
                       fake: Option<FakeNode>, close: bool, rebuildLinks: bool)

  /** `Node{}` with its type set. */
  function EmptyNode(t: string): Node
  {
    Node(t, "", {}, {}, map[], map[], map[], false, None, false, false)
  }

  /** The editor state of one window; the counters are static in the source
      and shared by every window, and are part of the state here. */
  datatype Editor = Editor(nextNode: int, nextPin: int, nextLink: int,
                           nodes: map<int, Node>, pinToNode: map<int, int>, links: map<int, Link>,
                           displayNode: int, lastOutput: int)

  function Pins(n: Node): set<int> { n.inputs + n.outputs }

  /** The smallest element of a set, the first one `std::set` iterates. */
  function SetMin(s: set<int>): (m: int)
    requires s != {}
    ensures m in s && forall x :: x in s ==> m <= x
  {
    MinExists(s);
    var m :| m in s && (forall x :: x in s ==> m <= x);
    m
  }

  lemma {:induction false} MinExists(s: set<int>)
    requires s != {}
    ensures exists m :: m in s && forall x :: x in s ==> m <= x
    decreases |s|
  {
    var y :| y in s;
    if s == {y} {
      assert forall x :: x in s ==> x == y;
      assert y in s && forall x :: x in s ==> y <= x;
    } else {
      var rest := s - {y};
      assert exists z :: z in rest by {
        var z :| z in s && z != y;
        assert z in rest;
      }
      MinExists(rest);
      var m :| m in rest && forall x :: x in rest ==> m <= x;
      if y < m {
        assert forall x :: x in s ==> x == y || x in rest;
        assert y in s && forall x :: x in s ==> y <= x;
      } else {
        assert forall x :: x in s ==> x == y || x in rest;
        assert m in s && forall x :: x in s ==> m <= x;
      }
    }
  }

  /** The elements of a set in ascending order, as `std::set` and the keys
      of `std::map` iterate. */
  function Sorted(s: set<int>): (r: seq<int>)
    ensures |r| == |s|
    ensures forall x :: x in s <==> x in r
    ensures forall i, j :: 0 <= i < j < |r| ==> r[i] < r[j]
    decreases |s|
  {
    if s == {} then [] else [SetMin(s)] + Sorted(s - {SetMin(s)})
  }

  /** Every element of `a` comes before every element of `b`. */
  predicate Precedes(a: set<int>, b: set<int>)
  {
    forall x, y :: x in a && y in b ==> x < y
  }

  /** Moving the least element of `rest` to `done` keeps `done` before
      `rest`; the element moved comes after everything done. */
  lemma PrecedesMin(done: set<int>, rest: set<int>)
    requires rest != {} && Precedes(done, rest)
    ensures forall x :: x in done ==> x < SetMin(rest)
    ensures Precedes(done + {SetMin(rest)}, rest - {SetMin(rest)})
    ensures (done + {SetMin(rest)}) + (rest - {SetMin(rest)}) == done + rest
  {
    var k := SetMin(rest);
    forall x, y | x in done + {k} && y in rest - {k}
      ensures x < y
    {
      if x == k {
        assert k <= y;
      }
    }
  }

  /** Adding an element larger than every other one appends it. */
  lemma {:induction false} SortedAdd(s: set<int>, k: int)
    requires forall x :: x in s ==> x < k
    ensures Sorted(s + {k}) == Sorted(s) + [k]
    decreases |s|
  {
    if s == {} {
      assert s + {k} == {k};
      assert SetMin({k}) == k;
      assert {k} - {k} == {};
    } else {
      var m := SetMin(s);
      assert SetMin(s + {k}) == m by {
        assert SetMin(s + {k}) in s;
      }
      assert (s + {k}) - {m} == (s - {m}) + {k};
      SortedAdd(s - {m}, k);
      var t := Sorted(s - {m});
      assert Sorted(s + {k}) == [m] + (t + [k]);
      assert Sorted(s) == [m] + t;
      ConsSnoc(m, t, k);
    }
  }

  lemma ConsSnoc(m: int, t: seq<int>, k: int)
    ensures [m] + (t + [k]) == ([m] + t) + [k]
  {
  }

  lemma SnocParts(t: seq<int>, k: int)
    ensures |t + [k]| == |t| + 1 && (t + [k])[..|t|] == t && (t + [k])[|t|] == k
  {
  }

  /** The largest element of a set, the one `rbegin` of a `std::set` gives. */
  function SetMax(s: set<int>): (m: int)
    requires s != {}
    ensures m in s && forall x :: x in s ==> x <= m
  {
    MaxExists(s);
    var m :| m in s && (forall x :: x in s ==> x <= m);
    m
  }

  /** The last element of the ascending order is the largest. */
  lemma MaxExists(s: set<int>)
    requires s != {}
    ensures exists m :: m in s && forall x :: x in s ==> x <= m
  {
    var r := Sorted(s);
    assert forall x :: x in s ==> x <= r[|r| - 1] by {
      forall x | x in s
        ensures x <= r[|r| - 1]
      {
        var i :| 0 <= i < |r| && r[i] == x;
        assert i == |r| - 1 || r[i] < r[|r| - 1];
      }
    }
    assert r[|r| - 1] in s;
  }

  /** The node that owns a pin, when the pin is known and its node exists. */
  function Owner(g: Editor, pin: int): Option<int>
  {
    if pin in g.pinToNode && g.pinToNode[pin] in g.nodes then Some(g.pinToNode[pin]) else None
  }

  /** `outPinToLinks[pin]`, which `operator[]` creates empty when missing. */
  function OutLinks(n: Node, pin: int): set<int>
  {
    if pin in n.outPinToLinks then n.outPinToLinks[pin] else {}
  }

  /** The start node records a link: the pin it uses and the link among those
      leaving that pin. */
  function AttachStart(n: Node, id: int, pin: int): (r: Node)
    ensures r.linkToPin == n.linkToPin[id := pin]
    ensures r.outPinToLinks == n.outPinToLinks[pin := OutLinks(n, pin) + {id}]
    ensures r.inPinToLink == n.inPinToLink && Pins(r) == Pins(n) && r.inputs == n.inputs
  {
    n.(linkToPin := n.linkToPin[id := pin], outPinToLinks := n.outPinToLinks[pin := OutLinks(n, pin) + {id}])
  }

  function DetachStart(n: Node, id: int, pin: int): (r: Node)
    ensures r.linkToPin == n.linkToPin - {id}
    ensures r.outPinToLinks == n.outPinToLinks[pin := OutLinks(n, pin) - {id}]
    ensures r.inPinToLink == n.inPinToLink && Pins(r) == Pins(n) && r.inputs == n.inputs
  {
    n.(linkToPin := n.linkToPin - {id}, outPinToLinks := n.outPinToLinks[pin := OutLinks(n, pin) - {id}])
  }

  /** The end node records a link: the pin it uses and the link into that
      pin. */
  function AttachEnd(n: Node, id: int, pin: int): (r: Node)
    ensures r.linkToPin == n.linkToPin[id := pin] && r.inPinToLink == n.inPinToLink[pin := id]
    ensures r.outPinToLinks == n.outPinToLinks && Pins(r) == Pins(n) && r.inputs == n.inputs
  {
    n.(linkToPin := n.linkToPin[id := pin], inPinToLink := n.inPinToLink[pin := id])
  }

  function DetachEnd(n: Node, id: int, pin: int): (r: Node)
    ensures r.linkToPin == n.linkToPin - {id} && r.inPinToLink == n.inPinToLink - {pin}
    ensures r.outPinToLinks == n.outPinToLinks && Pins(r) == Pins(n) && r.inputs == n.inputs
  {
    n.(linkToPin := n.linkToPin - {id}, inPinToLink := n.inPinToLink - {pin})
  }

  /** The start side of `_remove_link(id)` for a link starting at `pin`. */
  function UnlinkStart(g: Editor, id: int, pin: int): (r: Editor)
    ensures r.nodes.Keys == g.nodes.Keys
    ensures r == g.(nodes := r.nodes)
  {
    match Owner(g, pin)
    case Some(k) => g.(nodes := g.nodes[k := DetachStart(g.nodes[k], id, pin)])
    case None => g
  }

  /** The end side of `_remove_link(id)` for a link ending at `pin`. */
  function UnlinkEnd(g: Editor, id: int, pin: int): (r: Editor)
    ensures r.nodes.Keys == g.nodes.Keys
    ensures r == g.(nodes := r.nodes)
  {
    match Owner(g, pin)
    case Some(k) => g.(nodes := g.nodes[k := DetachEnd(g.nodes[k], id, pin)])
    case None => g
  }

  /** `_remove_link(id)`: a known link is taken out of the indexes of the
      nodes owning its two pins; then the id is erased from the links. */
  function RemoveLink(g: Editor, id: int): (r: Editor)
    ensures r.links == g.links - {id}
    ensures r.nodes.Keys == g.nodes.Keys
    ensures r == g.(nodes := r.nodes, links := r.links)
  {
    if id in g.links then
      UnlinkEnd(UnlinkStart(g, id, g.links[id].start), id, g.links[id].end).(links := g.links - {id})
    else g.(links := g.links - {id})
  }

  /** The start side of `_add_link`: the owner of `start` records the link. */
  function LinkStart(g: Editor, id: int, start: int): (r: Editor)
    ensures r.nodes.Keys == g.nodes.Keys
    ensures r == g.(nodes := r.nodes)
  {
    match Owner(g, start)
    case Some(k) => g.(nodes := g.nodes[k := AttachStart(g.nodes[k], id, start)])
    case None => g
  }

  /** An extendable node whose every input is linked gets one more input pin,
      the next pin id. */
  function Extend(g: Editor, k: int): (r: Editor)
    requires k in g.nodes
    ensures r.nodes.Keys == g.nodes.Keys && r.links == g.links && r.nextLink == g.nextLink
    ensures r.nextNode == g.nextNode && r.displayNode == g.displayNode && r.lastOutput == g.lastOutput
    ensures r.nextPin >= g.nextPin
  {
    var n := g.nodes[k];
    if n.extendable && |n.inPinToLink| == |n.inputs| then
      g.(nextPin := g.nextPin + 1,
         nodes := g.nodes[k := n.(inputs := n.inputs + {g.nextPin})],
         pinToNode := g.pinToNode[g.nextPin := k])
    else g
  }

  /** The end side of `_add_link`: the link already into `end` is removed,
      the owner of `end` records the new link, and may grow an input. */
  function LinkEnd(g: Editor, id: int, end: int): (r: Editor)
    ensures r.nodes.Keys == g.nodes.Keys && r.nextLink == g.nextLink && r.nextNode == g.nextNode
    ensures r.displayNode == g.displayNode && r.lastOutput == g.lastOutput
    ensures r.links.Keys <= g.links.Keys && r.nextPin >= g.nextPin
  {
    match Owner(g, end)
    case Some(k) =>
      var ga := if end in g.nodes[k].inPinToLink then RemoveLink(g, g.nodes[k].inPinToLink[end]) else g;
      Extend(ga.(nodes := ga.nodes[k := AttachEnd(ga.nodes[k], id, end)]), k)
    case None => g
  }

  /** `_add_link(start, end)`: the link is emplaced under the next link id,
      both endpoint nodes record it, and the counter advances. The id
      returned is `g.nextLink`. */
  function AddLink(g: Editor, start: int, end: int): (r: Editor)
    ensures r.nextLink == g.nextLink + 1 && r.nextNode == g.nextNode && r.nodes.Keys == g.nodes.Keys
    ensures r.displayNode == g.displayNode && r.lastOutput == g.lastOutput && r.nextPin >= g.nextPin
  {
    var g1 := g.(links := if g.nextLink in g.links then g.links else g.links[g.nextLink := Link(start, end)]);
    LinkEnd(LinkStart(g1, g.nextLink, start), g.nextLink, end).(nextLink := g.nextLink + 1)
  }

  /** The pins `lo`, `lo + 1`, ..., `hi - 1`. */
  function Range(lo: int, hi: int): (r: set<int>)
    ensures forall p :: p in r <==> lo <= p < hi
    decreases hi - lo
  {
    if hi <= lo then {} else Range(lo, hi - 1) + {hi - 1}
  }

  lemma {:induction false} RangeSize(lo: int, hi: int)
    ensures |Range(lo, hi)| == if hi <= lo then 0 else hi - lo
    decreases hi - lo
  {
    if lo < hi {
      RangeSize(lo, hi - 1);
      assert hi - 1 !in Range(lo, hi - 1);
    }
  }

  /** `m` with every pin from `lo` up to `hi` mapped to node `v`. */
  function Assign(m: map<int, int>, lo: int, hi: int, v: int): (r: map<int, int>)
    ensures forall p :: p in r <==> p in m || lo <= p < hi
    ensures forall p :: p in r ==> r[p] == if lo <= p < hi then v else m[p]
    decreases hi - lo
  {
    if hi <= lo then m else Assign(m, lo, hi - 1, v)[hi - 1 := v]
  }

  /** `_pins(count)`: `count` consecutive new pin ids (none for a count below
      one), all owned by the next node id. */
  function AddPins(g: Editor, count: int): (r: Editor)
    ensures r.nextPin == g.nextPin + (if count < 0 then 0 else count)
    ensures r == g.(nextPin := r.nextPin, pinToNode := r.pinToNode)
    ensures forall p :: p in r.pinToNode <==> p in g.pinToNode || g.nextPin <= p < r.nextPin
    ensures forall p :: p in r.pinToNode ==>
              r.pinToNode[p] == if g.nextPin <= p < r.nextPin then g.nextNode else g.pinToNode[p]
  {
    var hi := g.nextPin + (if count < 0 then 0 else count);
    g.(nextPin := hi, pinToNode := Assign(g.pinToNode, g.nextPin, hi, g.nextNode))
  }

  /** The new node `_add_node(t)` builds before it is emplaced, with the
      editor state after its pins are allocated (`made` is the stand-in node
      created for a registered type). A registered type takes its display
      name and pin counts from the registry, an input count of -1 meaning one
      extendable input; an unregistered "display" gets one extendable input;
      any other unregistered type gets no pins. */
  function NewNode(g: Editor, t: string, registry: map<string, EngineNodes.NodeData>, made: Option<FakeNode>): (Editor, Node)
  {
    if t in registry then
      var d := registry[t];
      var g1 := AddPins(g, if d.inputs == -1 then 1 else d.inputs);
      var g2 := AddPins(g1, d.outputs);
      (g2, Node(d.ntype, d.displayName, Range(g.nextPin, g1.nextPin), Range(g1.nextPin, g2.nextPin),
                map[], map[], map[], d.inputs == -1, made, false, false))
    else if t == "display" then
      var g1 := AddPins(g, 1);
      (g1, EmptyNode(t).(inputs := Range(g.nextPin, g1.nextPin), extendable := true))
    else (g, EmptyNode(t))
  }

  /** The outputs of node `k` that have no entry in its `outPinToLinks`,
      which includes outputs whose links were all removed only when they
      never had one. */
  function UnusedOutputs(n: Node): set<int>
  {
    set o | o in n.outputs && o !in n.outPinToLinks
  }

  /** Where `_add_node` links the new node `n` from: the first output of the
      selected node that never had a link, else the last added node's first
      output; only when the new node has an input. */
  function LinkSource(g: Editor, n: Node, selected: Option<int>): Option<int>
  {
    if n.inputs == {} then None
    else if selected.Some? && selected.value in g.nodes && UnusedOutputs(g.nodes[selected.value]) != {} then
      Some(SetMin(UnusedOutputs(g.nodes[selected.value])))
    else if g.lastOutput != -1 then Some(g.lastOutput)
    else None
  }

  /** `_add_node(t)` with the node selected in the editor, if any: pins are
      allocated, the node is emplaced under the next node id, linked into
      its first input, and its first output becomes the last added output.
      The id returned is `g.nextNode`. */
  function AddNode(g: Editor, t: string, registry: map<string, EngineNodes.NodeData>, selected: Option<int>, made: Option<FakeNode>): (r: Editor)
    ensures r.nextNode == g.nextNode + 1
  {
    var n := NewNode(g, t, registry, made).1;
    var g3 := LinkNew(Emplaced(g, t, registry, made), n, selected);
    g3.(lastOutput := if n.outputs == {} then -1 else SetMin(n.outputs), nextNode := g.nextNode + 1)
  }

  // ---------------------------------------------------------------------
  // The invariant.

  /** Every known pin belongs to an existing node that lists it, and every
      pin a node lists is known as that node's. */
  predicate PinsOwned(g: Editor)
  {
    (forall p :: p in g.pinToNode ==> g.pinToNode[p] in g.nodes && p in Pins(g.nodes[g.pinToNode[p]])) &&
    (forall k, p :: k in g.nodes && p in Pins(g.nodes[k]) ==> p in g.pinToNode && g.pinToNode[p] == k)
  }

  /** Every pin in use is below the pin counter. */
  predicate PinsAhead(g: Editor)
  {
    (forall p :: p in g.pinToNode ==> p < g.nextPin) &&
    (forall id :: id in g.links ==> g.links[id].start < g.nextPin && g.links[id].end < g.nextPin)
  }

  /** Every link id in use is below the link counter. */
  predicate LinkIdsAhead(g: Editor)
  {
    forall id :: id in g.links ==> id < g.nextLink
  }

  /** The owner of a link's start pin records the link as leaving that pin. */
  predicate StartRecorded(g: Editor, id: int)
    requires id in g.links
  {
    Owner(g, g.links[id].start).Some? ==>
      var n := g.nodes[Owner(g, g.links[id].start).value];
      id in n.linkToPin && id in OutLinks(n, g.links[id].start)
  }

  /** The owner of a link's end pin records the link as the one into that
      pin. */
  predicate EndRecorded(g: Editor, id: int)
    requires id in g.links
  {
    Owner(g, g.links[id].end).Some? ==>
      var n := g.nodes[Owner(g, g.links[id].end).value];
      id in n.linkToPin && g.links[id].end in n.inPinToLink && n.inPinToLink[g.links[id].end] == id
  }

  /** Each link outside `x` is recorded by the nodes owning its two pins. */
  predicate RecordedExcept(g: Editor, x: set<int>)
  {
    forall id :: id in g.links && id !in x ==> StartRecorded(g, id) && EndRecorded(g, id)
  }

  /** Every link node `k` records uses one of its pins. */
  predicate PinIndexSound(g: Editor, k: int)
    requires k in g.nodes
  {
    forall id :: id in g.nodes[k].linkToPin ==>
      id in g.links && (Owner(g, g.links[id].start) == Some(k) || Owner(g, g.links[id].end) == Some(k))
  }

  /** Every link node `k` records as the one into a pin ends at that pin. */
  predicate InIndexSound(g: Editor, k: int)
    requires k in g.nodes
  {
    forall p :: p in g.nodes[k].inPinToLink ==>
      g.nodes[k].inPinToLink[p] in g.links && g.links[g.nodes[k].inPinToLink[p]].end == p &&
      Owner(g, p) == Some(k)
  }

  /** Every link node `k` records as leaving a pin starts at that pin. */
  predicate OutIndexSound(g: Editor, k: int)
    requires k in g.nodes
  {
    forall p, id :: p in g.nodes[k].outPinToLinks && id in g.nodes[k].outPinToLinks[p] ==>
      id in g.links && g.links[id].start == p && Owner(g, p) == Some(k)
  }

  /** Whatever a node records is a link at one of its pins. */
  predicate IndexesSound(g: Editor)
  {
    forall k :: k in g.nodes ==> PinIndexSound(g, k) && InIndexSound(g, k) && OutIndexSound(g, k)
  }

  /** What every editor operation keeps. */
  predicate Core(g: Editor)
  {
    PinsOwned(g) && PinsAhead(g) && LinkIdsAhead(g) && RecordedExcept(g, {}) && IndexesSound(g)
  }

  /** The full invariant: `Core`, node ids below their counter, and the
      last added output, when set, a pin handed out. */
  predicate Valid(g: Editor)
  {
    Core(g) && (forall k :: k in g.nodes ==> k < g.nextNode) &&
    (g.lastOutput == -1 || g.lastOutput < g.nextPin)
  }

  /** An input pin has at most one link into it. */
  lemma OneLinkPerInput(g: Editor, a: int, b: int)
    requires Core(g)
    requires a in g.links && b in g.links && g.links[a].end == g.links[b].end
    requires Owner(g, g.links[a].end).Some?
    ensures a == b
  {
  }

  lemma UnlinkStartAt(g: Editor, id: int, pin: int, k: int)
    requires k in g.nodes
    ensures UnlinkStart(g, id, pin).nodes[k] ==
              if Owner(g, pin) == Some(k) then DetachStart(g.nodes[k], id, pin) else g.nodes[k]
  {
  }

  lemma UnlinkEndAt(g: Editor, id: int, pin: int, k: int)
    requires k in g.nodes
    ensures UnlinkEnd(g, id, pin).nodes[k] ==
              if Owner(g, pin) == Some(k) then DetachEnd(g.nodes[k], id, pin) else g.nodes[k]
  {
  }

  /** The node-side effect of removing link `id` on node `k`: it leaves the
      link indexes of `k` when `k` owns one of the link's pins. */
  lemma RemoveLinkAt(g: Editor, id: int, k: int)
    requires id in g.links && k in g.nodes
    ensures var r := RemoveLink(g, id);
      var s := g.links[id].start; var e := g.links[id].end;
      var n := g.nodes[k];
      var m := r.nodes[k];
      r.nextPin == g.nextPin && r.nextLink == g.nextLink && r.pinToNode == g.pinToNode &&
      m.inputs == n.inputs && m.outputs == n.outputs &&
      m.linkToPin == (if Owner(g, s) == Some(k) || Owner(g, e) == Some(k) then n.linkToPin - {id} else n.linkToPin) &&
      m.inPinToLink == (if Owner(g, e) == Some(k) then n.inPinToLink - {e} else n.inPinToLink) &&
      m.outPinToLinks == (if Owner(g, s) == Some(k) then n.outPinToLinks[s := OutLinks(n, s) - {id}] else n.outPinToLinks)
  {
    var s := g.links[id].start; var e := g.links[id].end;
    var g1 := UnlinkStart(g, id, s);
    UnlinkStartAt(g, id, s, k);
    UnlinkEndAt(g1, id, e, k);
    assert Owner(g1, e) == Owner(g, e);
  }

  lemma RemoveLinkKeepsPins(g: Editor, id: int)
    requires PinsOwned(g) && PinsAhead(g) && id in g.links
    ensures PinsOwned(RemoveLink(g, id)) && PinsAhead(RemoveLink(g, id))
  {
    var r := RemoveLink(g, id);
    forall k | k in g.nodes
      ensures Pins(r.nodes[k]) == Pins(g.nodes[k])
    {
      RemoveLinkAt(g, id, k);
    }
  }

  /** Removing one link leaves every other link recorded. */
  lemma RemoveLinkKeepsRecorded(g: Editor, id: int, x: set<int>)
    requires RecordedExcept(g, x) && id in g.links && id !in x
    ensures RecordedExcept(RemoveLink(g, id), x)
  {
    var r := RemoveLink(g, id);
    forall l | l in r.links && l !in x
      ensures StartRecorded(r, l) && EndRecorded(r, l)
    {
      assert StartRecorded(g, l) && EndRecorded(g, l);
      if Owner(g, g.links[l].start).Some? {
        RemoveLinkAt(g, id, Owner(g, g.links[l].start).value);
      }
      if Owner(g, g.links[l].end).Some? {
        RemoveLinkAt(g, id, Owner(g, g.links[l].end).value);
      }
    }
  }

  /** Removing a link leaves every index pointing at links. */
  lemma RemoveLinkKeepsSound(g: Editor, id: int)
    requires IndexesSound(g) && id in g.links
    ensures IndexesSound(RemoveLink(g, id))
  {
    var r := RemoveLink(g, id);
    forall k | k in r.nodes
      ensures PinIndexSound(r, k) && InIndexSound(r, k) && OutIndexSound(r, k)
    {
      RemoveLinkAt(g, id, k);
      assert PinIndexSound(g, k) && InIndexSound(g, k) && OutIndexSound(g, k);
      RemoveLinkKeepsPinIndex(g, id, k);
      RemoveLinkKeepsInIndex(g, id, k);
      RemoveLinkKeepsOutIndex(g, id, k);
    }
  }

  lemma RemoveLinkKeepsPinIndex(g: Editor, id: int, k: int)
    requires id in g.links && k in g.nodes && PinIndexSound(g, k)
    ensures PinIndexSound(RemoveLink(g, id), k)
  {
    RemoveLinkAt(g, id, k);
  }

  lemma RemoveLinkKeepsInIndex(g: Editor, id: int, k: int)
    requires id in g.links && k in g.nodes && InIndexSound(g, k)
    ensures InIndexSound(RemoveLink(g, id), k)
  {
    RemoveLinkAt(g, id, k);
  }

  lemma RemoveLinkKeepsOutIndex(g: Editor, id: int, k: int)
    requires id in g.links && k in g.nodes && OutIndexSound(g, k)
    ensures OutIndexSound(RemoveLink(g, id), k)
  {
    RemoveLinkAt(g, id, k);
    var r := RemoveLink(g, id);
    var s := g.links[id].start;
    forall p, l | p in r.nodes[k].outPinToLinks && l in r.nodes[k].outPinToLinks[p]
      ensures l in r.links && r.links[l].start == p && Owner(r, p) == Some(k)
    {
      if Owner(g, s) == Some(k) && p == s {
        assert l in OutLinks(g.nodes[k], s) && l != id;
      } else {
        assert l in g.nodes[k].outPinToLinks[p];
      }
    }
  }

  /** Removing a link, known or not, keeps the invariant. */
  lemma RemoveLinkPreservesCore(g: Editor, id: int)
    requires Core(g)
    ensures Core(RemoveLink(g, id))
  {
    if id in g.links {
      RemoveLinkKeepsPins(g, id);
      RemoveLinkKeepsRecorded(g, id, {});
      RemoveLinkKeepsSound(g, id);
    } else {
      assert RemoveLink(g, id) == g;
    }
  }

  /** `Core` without the link counter, with the links in `x` exempt from
      being recorded: the states in the middle of `_add_link`. */
  predicate Mid(g: Editor, x: set<int>)
  {
    PinsOwned(g) && PinsAhead(g) && RecordedExcept(g, x) && IndexesSound(g)
  }

  /** Removing a link leaves the start side of any other link recorded. */
  lemma RemoveLinkKeepsStart(g: Editor, id: int, l: int)
    requires id in g.links && l in g.links && l != id && StartRecorded(g, l)
    ensures l in RemoveLink(g, id).links && StartRecorded(RemoveLink(g, id), l)
  {
    if Owner(g, g.links[l].start).Some? {
      RemoveLinkAt(g, id, Owner(g, g.links[l].start).value);
    }
  }

  /** Emplacing a new link keeps the invariant, with the new link exempt
      from being recorded. */
  lemma EmplaceKeepsMid(g: Editor, x: set<int>, id: int, s: int, e: int)
    requires Mid(g, x) && id !in g.links && s < g.nextPin && e < g.nextPin
    ensures Mid(g.(links := g.links[id := Link(s, e)]), x + {id})
  {
    var g1 := g.(links := g.links[id := Link(s, e)]);
    forall k | k in g1.nodes
      ensures PinIndexSound(g1, k) && InIndexSound(g1, k) && OutIndexSound(g1, k)
    {
      assert PinIndexSound(g, k) && InIndexSound(g, k) && OutIndexSound(g, k);
      forall p, l | p in g1.nodes[k].outPinToLinks && l in g1.nodes[k].outPinToLinks[p]
        ensures l in g1.links && g1.links[l].start == p && Owner(g1, p) == Some(k)
      {
        assert l in g.links && l != id;
      }
    }
    forall l | l in g1.links && l !in x + {id}
      ensures StartRecorded(g1, l) && EndRecorded(g1, l)
    {
      assert StartRecorded(g, l) && EndRecorded(g, l);
    }
  }

  lemma LinkStartAt(g: Editor, id: int, pin: int, k: int)
    requires k in g.nodes
    ensures LinkStart(g, id, pin).nodes[k] ==
              if Owner(g, pin) == Some(k) then AttachStart(g.nodes[k], id, pin) else g.nodes[k]
  {
  }

  /** The start owner recording a link keeps the invariant and records the
      link's start side. */
  lemma LinkStartKeepsMid(g: Editor, x: set<int>, id: int)
    requires Mid(g, x) && id in g.links
    ensures var r := LinkStart(g, id, g.links[id].start);
      Mid(r, x) && StartRecorded(r, id)
  {
    LinkStartKeepsPins(g, id);
    LinkStartKeepsSound(g, id);
    LinkStartKeepsRecorded(g, x, id);
  }

  lemma LinkStartKeepsPins(g: Editor, id: int)
    requires PinsOwned(g) && PinsAhead(g) && id in g.links
    ensures var r := LinkStart(g, id, g.links[id].start);
      PinsOwned(r) && PinsAhead(r)
  {
    var s := g.links[id].start;
    var r := LinkStart(g, id, s);
    forall k | k in r.nodes
      ensures Pins(r.nodes[k]) == Pins(g.nodes[k])
    {
      LinkStartAt(g, id, s, k);
    }
  }

  lemma LinkStartKeepsSound(g: Editor, id: int)
    requires IndexesSound(g) && id in g.links
    ensures IndexesSound(LinkStart(g, id, g.links[id].start))
  {
    var s := g.links[id].start;
    var r := LinkStart(g, id, s);
    forall k | k in r.nodes
      ensures PinIndexSound(r, k) && InIndexSound(r, k) && OutIndexSound(r, k)
    {
      LinkStartAt(g, id, s, k);
      assert PinIndexSound(g, k) && InIndexSound(g, k) && OutIndexSound(g, k);
      forall p, l | p in r.nodes[k].outPinToLinks && l in r.nodes[k].outPinToLinks[p]
        ensures l in r.links && r.links[l].start == p && Owner(r, p) == Some(k)
      {
        if l != id {
          assert p in g.nodes[k].outPinToLinks && l in g.nodes[k].outPinToLinks[p];
        }
      }
    }
  }

  lemma LinkStartKeepsRecorded(g: Editor, x: set<int>, id: int)
    requires RecordedExcept(g, x) && id in g.links
    ensures var r := LinkStart(g, id, g.links[id].start);
      RecordedExcept(r, x) && StartRecorded(r, id)
  {
    var s := g.links[id].start;
    var r := LinkStart(g, id, s);
    forall l | l in r.links && l !in x
      ensures StartRecorded(r, l) && EndRecorded(r, l)
    {
      assert StartRecorded(g, l) && EndRecorded(g, l);
      if Owner(g, g.links[l].start).Some? {
        LinkStartAt(g, id, s, Owner(g, g.links[l].start).value);
      }
      if Owner(g, g.links[l].end).Some? {
        LinkStartAt(g, id, s, Owner(g, g.links[l].end).value);
      }
    }
    if Owner(g, s).Some? {
      LinkStartAt(g, id, s, Owner(g, s).value);
    }
  }

  /** The end owner recording a link into a pin no other link enters keeps
      the invariant and records the link fully. */
  lemma AttachEndKeepsMid(g: Editor, id: int, k: int)
    requires Mid(g, {id}) && id in g.links && StartRecorded(g, id)
    requires Owner(g, g.links[id].end) == Some(k) && g.links[id].end !in g.nodes[k].inPinToLink
    ensures var e := g.links[id].end;
      Mid(g.(nodes := g.nodes[k := AttachEnd(g.nodes[k], id, e)]), {})
  {
    var e := g.links[id].end;
    var r := g.(nodes := g.nodes[k := AttachEnd(g.nodes[k], id, e)]);
    forall j | j in r.nodes
      ensures PinIndexSound(r, j) && InIndexSound(r, j) && OutIndexSound(r, j)
    {
      assert PinIndexSound(g, j) && InIndexSound(g, j) && OutIndexSound(g, j);
      forall p, l | p in r.nodes[j].outPinToLinks && l in r.nodes[j].outPinToLinks[p]
        ensures l in r.links && r.links[l].start == p && Owner(r, p) == Some(j)
      {
        assert l in g.nodes[j].outPinToLinks[p];
      }
    }
    forall l | l in r.links
      ensures StartRecorded(r, l) && EndRecorded(r, l)
    {
      if l != id {
        assert StartRecorded(g, l) && EndRecorded(g, l);
      } else {
        assert StartRecorded(g, l);
      }
    }
  }

  /** Growing node `k` by the next pin id, which nothing uses yet. */
  function Grow(g: Editor, k: int): Editor
    requires k in g.nodes
  {
    g.(nextPin := g.nextPin + 1,
       nodes := g.nodes[k := g.nodes[k].(inputs := g.nodes[k].inputs + {g.nextPin})],
       pinToNode := g.pinToNode[g.nextPin := k])
  }

  lemma GrowKeepsPins(g: Editor, k: int)
    requires PinsOwned(g) && PinsAhead(g) && k in g.nodes
    ensures PinsOwned(Grow(g, k)) && PinsAhead(Grow(g, k))
  {
    var r := Grow(g, k);
    var np := g.nextPin;
    assert np !in g.pinToNode;
    forall j, p | j in r.nodes && p in Pins(r.nodes[j])
      ensures p in r.pinToNode && r.pinToNode[p] == j
    {
      if p != np {
        assert p in Pins(g.nodes[j]);
      }
    }
  }

  lemma GrowKeepsRecorded(g: Editor, k: int)
    requires PinsAhead(g) && RecordedExcept(g, {}) && k in g.nodes
    ensures RecordedExcept(Grow(g, k), {})
  {
    var r := Grow(g, k);
    forall l | l in r.links
      ensures StartRecorded(r, l) && EndRecorded(r, l)
    {
      assert StartRecorded(g, l) && EndRecorded(g, l);
      assert Owner(r, g.links[l].start) == Owner(g, g.links[l].start);
      assert Owner(r, g.links[l].end) == Owner(g, g.links[l].end);
    }
  }

  lemma GrowKeepsSound(g: Editor, k: int)
    requires PinsAhead(g) && IndexesSound(g) && k in g.nodes
    ensures IndexesSound(Grow(g, k))
  {
    var r := Grow(g, k);
    forall j | j in r.nodes
      ensures PinIndexSound(r, j) && InIndexSound(r, j) && OutIndexSound(r, j)
    {
      assert PinIndexSound(g, j) && InIndexSound(g, j) && OutIndexSound(g, j);
      forall l | l in r.nodes[j].linkToPin
        ensures l in r.links && (Owner(r, r.links[l].start) == Some(j) || Owner(r, r.links[l].end) == Some(j))
      {
        assert Owner(r, g.links[l].start) == Owner(g, g.links[l].start);
        assert Owner(r, g.links[l].end) == Owner(g, g.links[l].end);
      }
      forall p, l | p in r.nodes[j].outPinToLinks && l in r.nodes[j].outPinToLinks[p]
        ensures l in r.links && r.links[l].start == p && Owner(r, p) == Some(j)
      {
        assert l in g.nodes[j].outPinToLinks[p];
      }
    }
  }

  /** Growing an extendable node keeps the invariant. */
  lemma ExtendKeepsMid(g: Editor, k: int)
    requires Mid(g, {}) && k in g.nodes
    ensures Mid(Extend(g, k), {})
  {
    var n := g.nodes[k];
    if n.extendable && |n.inPinToLink| == |n.inputs| {
      assert Extend(g, k) == Grow(g, k);
      GrowKeepsPins(g, k);
      GrowKeepsRecorded(g, k);
      GrowKeepsSound(g, k);
    }
  }

  /** The end side of `_add_link` keeps the invariant: the link already
      into the pin is removed first, so the new one is the only one. */
  lemma LinkEndKeepsMid(g: Editor, id: int)
    requires Mid(g, {id}) && id in g.links && StartRecorded(g, id)
    requires forall k, p :: k in g.nodes && p in g.nodes[k].inPinToLink ==> g.nodes[k].inPinToLink[p] != id
    ensures Mid(LinkEnd(g, id, g.links[id].end), {})
  {
    var e := g.links[id].end;
    match Owner(g, e)
    case None =>
      assert LinkEnd(g, id, e) == g;
      forall l | l in g.links
        ensures StartRecorded(g, l) && EndRecorded(g, l)
      {
        if l != id {
          assert StartRecorded(g, l) && EndRecorded(g, l);
        }
      }
    case Some(k) =>
      var ga := if e in g.nodes[k].inPinToLink then RemoveLink(g, g.nodes[k].inPinToLink[e]) else g;
      if e in g.nodes[k].inPinToLink {
        var l0 := g.nodes[k].inPinToLink[e];
        assert InIndexSound(g, k);
        assert l0 in g.links && l0 != id;
        RemoveLinkKeepsPins(g, l0);
        RemoveLinkKeepsRecorded(g, l0, {id});
        RemoveLinkKeepsSound(g, l0);
        RemoveLinkKeepsStart(g, l0, id);
        RemoveLinkAt(g, l0, k);
      }
      assert Mid(ga, {id}) && StartRecorded(ga, id) && ga.links[id] == g.links[id];
      AttachEndKeepsMid(ga, id, k);
      ExtendKeepsMid(ga.(nodes := ga.nodes[k := AttachEnd(ga.nodes[k], id, e)]), k);
  }

  /** `_add_link` between two pins the editor handed out keeps the
      invariant. */
  lemma AddLinkPreservesCore(g: Editor, s: int, e: int)
    requires Core(g) && s < g.nextPin && e < g.nextPin
    ensures Core(AddLink(g, s, e))
  {
    var nl := g.nextLink;
    var g1 := g.(links := g.links[nl := Link(s, e)]);
    assert Mid(g, {});
    EmplaceKeepsMid(g, {}, nl, s, e);
    assert {} + {nl} == {nl};
    LinkStartKeepsMid(g1, {nl}, nl);
    var g2 := LinkStart(g1, nl, s);
    forall k, p | k in g2.nodes && p in g2.nodes[k].inPinToLink
      ensures g2.nodes[k].inPinToLink[p] != nl
    {
      LinkStartAt(g1, nl, s, k);
      assert InIndexSound(g, k);
    }
    LinkEndKeepsMid(g2, nl);
    CoreAfterLinkEnd(LinkEnd(g2, nl, e), nl);
    assert AddLink(g, s, e) == LinkEnd(g2, nl, e).(nextLink := nl + 1);
  }

  lemma CoreAfterLinkEnd(g: Editor, nl: int)
    requires Mid(g, {}) && forall l :: l in g.links ==> l <= nl
    ensures Core(g.(nextLink := nl + 1))
  {
    var r := g.(nextLink := nl + 1);
    forall j | j in r.nodes
      ensures PinIndexSound(r, j) && InIndexSound(r, j) && OutIndexSound(r, j)
    {
      assert PinIndexSound(g, j) && InIndexSound(g, j) && OutIndexSound(g, j);
    }
    forall l | l in r.links
      ensures StartRecorded(r, l) && EndRecorded(r, l)
    {
      assert StartRecorded(g, l) && EndRecorded(g, l);
    }
  }

  /** The links `_add_link(s, e)` leaves: the new link under the next id,
      and every earlier link except the one into `e` when a node owns `e`. */
  function Replaced(g: Editor, s: int, e: int): map<int, Link>
  {
    (map l | l in g.links && !(Owner(g, e).Some? && g.links[l].end == e) :: g.links[l])[g.nextLink := Link(s, e)]
  }

  /** Under the invariant, the links into a pin of node `k` are exactly the
      one `k` records for that pin. */
  lemma LinksInto(g: Editor, e: int, k: int)
    requires Core(g) && Owner(g, e) == Some(k)
    ensures forall l :: l in g.links && g.links[l].end == e <==>
              e in g.nodes[k].inPinToLink && l == g.nodes[k].inPinToLink[e]
  {
    assert InIndexSound(g, k);
    forall l | l in g.links && g.links[l].end == e
      ensures e in g.nodes[k].inPinToLink && l == g.nodes[k].inPinToLink[e]
    {
      assert EndRecorded(g, l);
    }
  }

  /** The links after the end side of `_add_link`. */
  lemma LinkEndLinks(g2: Editor, nl: int, e: int)
    ensures LinkEnd(g2, nl, e).links ==
              match Owner(g2, e)
              case Some(k) =>
                if e in g2.nodes[k].inPinToLink then g2.links - {g2.nodes[k].inPinToLink[e]} else g2.links
              case None => g2.links
  {
  }

  /** Adding a link into a pin of a node replaces the link that entered the
      pin before; a link into a pin no node owns is simply added. */
  lemma AddLinkReplaces(g: Editor, s: int, e: int)
    requires Core(g)
    ensures AddLink(g, s, e).links == Replaced(g, s, e)
  {
    var nl := g.nextLink;
    var g1 := g.(links := g.links[nl := Link(s, e)]);
    var g2 := LinkStart(g1, nl, s);
    assert g2.links == g1.links && g2.pinToNode == g.pinToNode && Owner(g2, e) == Owner(g, e);
    LinkEndLinks(g2, nl, e);
    match Owner(g, e)
    case None =>
      assert AddLink(g, s, e).links == g1.links;
    case Some(k) =>
      LinkStartAt(g1, nl, s, k);
      var gone := if e in g.nodes[k].inPinToLink then {g.nodes[k].inPinToLink[e]} else {};
      assert AddLink(g, s, e).links == g1.links - gone;
      ReplacedOwned(g, s, e, k);
  }

  lemma ReplacedOwned(g: Editor, s: int, e: int, k: int)
    requires Core(g) && Owner(g, e) == Some(k)
    ensures var gone := if e in g.nodes[k].inPinToLink then {g.nodes[k].inPinToLink[e]} else {};
      Replaced(g, s, e) == g.links[g.nextLink := Link(s, e)] - gone
  {
    LinksInto(g, e, k);
    var gone := if e in g.nodes[k].inPinToLink then {g.nodes[k].inPinToLink[e]} else {};
    var rep := Replaced(g, s, e);
    var m := g.links[g.nextLink := Link(s, e)] - gone;
    forall l
      ensures (l in m <==> l in rep) && (l in rep ==> m[l] == rep[l])
    {
      if l != g.nextLink && l in g.links {
        assert l in gone <==> g.links[l].end == e;
      }
    }
  }

  /** After `_add_link(s, e)` into a pin some node owns, the new link is the
      only one into `e`, and the node records it as such. */
  lemma AddLinkEntersAlone(g: Editor, s: int, e: int)
    requires Core(g) && Owner(g, e).Some?
    ensures var r := AddLink(g, s, e);
      g.nextLink in r.links && r.links[g.nextLink] == Link(s, e) &&
      (forall l :: l in r.links && r.links[l].end == e ==> l == g.nextLink)
  {
    AddLinkReplaces(g, s, e);
  }

  /** What allocating the new node's pins does: fresh consecutive pins, all
      owned by the next node id, and the node built with exactly those pins
      and no links. */
  lemma NewNodeFacts(g: Editor, t: string, registry: map<string, EngineNodes.NodeData>, made: Option<FakeNode>)
    requires PinsAhead(g)
    ensures var (g1, n) := NewNode(g, t, registry, made);
      g1 == g.(nextPin := g1.nextPin, pinToNode := g1.pinToNode) && g.nextPin <= g1.nextPin &&
      Pins(n) == Range(g.nextPin, g1.nextPin) &&
      n.linkToPin == map[] && n.inPinToLink == map[] && n.outPinToLinks == map[] &&
      (forall p :: g.nextPin <= p < g1.nextPin ==> p in g1.pinToNode && g1.pinToNode[p] == g.nextNode) &&
      (forall p :: p in g1.pinToNode ==> p in g.pinToNode || g.nextPin <= p < g1.nextPin) &&
      (forall p :: p in g.pinToNode ==> p in g1.pinToNode && g1.pinToNode[p] == g.pinToNode[p])
  {
    if t in registry {
      RegisteredPins(g, registry[t].inputs, registry[t].outputs);
    }
  }

  /** Two consecutive pin allocations make one range of fresh pins. */
  lemma RegisteredPins(g: Editor, ins: int, outs: int)
    requires PinsAhead(g)
    ensures var g1 := AddPins(g, if ins == -1 then 1 else ins);
      var g2 := AddPins(g1, outs);
      Range(g.nextPin, g1.nextPin) + Range(g1.nextPin, g2.nextPin) == Range(g.nextPin, g2.nextPin) &&
      g2 == g.(nextPin := g2.nextPin, pinToNode := g2.pinToNode) && g.nextPin <= g2.nextPin &&
      (forall p :: g.nextPin <= p < g2.nextPin ==> p in g2.pinToNode && g2.pinToNode[p] == g.nextNode) &&
      (forall p :: p in g2.pinToNode ==> p in g.pinToNode || g.nextPin <= p < g2.nextPin) &&
      (forall p :: p in g.pinToNode ==> p in g2.pinToNode && g2.pinToNode[p] == g.pinToNode[p])
  {
  }

  /** The state right after `_add_node` emplaces its node, when the node id
      is fresh. */
  function Emplaced(g: Editor, t: string, registry: map<string, EngineNodes.NodeData>, made: Option<FakeNode>): Editor
  {
    var (g1, n) := NewNode(g, t, registry, made);
    g1.(nodes := if g.nextNode in g1.nodes then g1.nodes else g1.nodes[g.nextNode := n])
  }

  lemma EmplacedOwnsPins(g: Editor, t: string, registry: map<string, EngineNodes.NodeData>, made: Option<FakeNode>)
    requires Valid(g)
    ensures PinsOwned(Emplaced(g, t, registry, made)) && PinsAhead(Emplaced(g, t, registry, made))
  {
    NewNodeFacts(g, t, registry, made);
    var (g1, n) := NewNode(g, t, registry, made);
    var g2 := Emplaced(g, t, registry, made);
    assert g.nextNode !in g.nodes;
    forall k, p | k in g2.nodes && p in Pins(g2.nodes[k])
      ensures p in g2.pinToNode && g2.pinToNode[p] == k
    {
      if k != g.nextNode {
        assert p in g.pinToNode;
      }
    }
  }

  lemma EmplacedSound(g: Editor, t: string, registry: map<string, EngineNodes.NodeData>, made: Option<FakeNode>)
    requires Valid(g)
    ensures IndexesSound(Emplaced(g, t, registry, made))
  {
    NewNodeFacts(g, t, registry, made);
    var g2 := Emplaced(g, t, registry, made);
    forall k | k in g2.nodes
      ensures PinIndexSound(g2, k) && InIndexSound(g2, k) && OutIndexSound(g2, k)
    {
      if k != g.nextNode {
        EmplacedNodeSound(g, t, registry, made, k);
      }
    }
  }

  lemma EmplacedNodeSound(g: Editor, t: string, registry: map<string, EngineNodes.NodeData>, made: Option<FakeNode>, k: int)
    requires Valid(g) && k in g.nodes
    ensures var g2 := Emplaced(g, t, registry, made);
      k in g2.nodes && PinIndexSound(g2, k) && InIndexSound(g2, k) && OutIndexSound(g2, k)
  {
    NewNodeFacts(g, t, registry, made);
    var g2 := Emplaced(g, t, registry, made);
    assert k != g.nextNode && g2.nodes[k] == g.nodes[k];
    assert PinIndexSound(g, k) && InIndexSound(g, k) && OutIndexSound(g, k);
    forall l | l in g2.nodes[k].linkToPin
      ensures l in g2.links && (Owner(g2, g2.links[l].start) == Some(k) || Owner(g2, g2.links[l].end) == Some(k))
    {
      assert Owner(g2, g.links[l].start) == Owner(g, g.links[l].start);
      assert Owner(g2, g.links[l].end) == Owner(g, g.links[l].end);
    }
    forall p, l | p in g2.nodes[k].outPinToLinks && l in g2.nodes[k].outPinToLinks[p]
      ensures l in g2.links && g2.links[l].start == p && Owner(g2, p) == Some(k)
    {
      var n := g.nodes[k];
      assert p in n.outPinToLinks && l in n.outPinToLinks[p];
      assert l in g.links && g.links[l].start == p && Owner(g, p) == Some(k);
      assert p in g.pinToNode;
      assert Owner(g2, p) == Owner(g, p);
    }
    assert OutIndexSound(g2, k);
  }

  lemma EmplacedRecorded(g: Editor, t: string, registry: map<string, EngineNodes.NodeData>, made: Option<FakeNode>)
    requires Valid(g)
    ensures RecordedExcept(Emplaced(g, t, registry, made), {})
  {
    NewNodeFacts(g, t, registry, made);
    var g2 := Emplaced(g, t, registry, made);
    assert g.nextNode !in g.nodes;
    forall l | l in g2.links
      ensures StartRecorded(g2, l) && EndRecorded(g2, l)
    {
      assert StartRecorded(g, l) && EndRecorded(g, l);
      assert Owner(g2, g.links[l].start) == Owner(g, g.links[l].start);
      assert Owner(g2, g.links[l].end) == Owner(g, g.links[l].end);
    }
  }

  /** Emplacing the new node under a fresh id keeps the invariant. */
  lemma EmplaceNodeKeepsValid(g: Editor, t: string, registry: map<string, EngineNodes.NodeData>, made: Option<FakeNode>)
    requires Valid(g)
    ensures var (g1, n) := NewNode(g, t, registry, made);
      var g2 := Emplaced(g, t, registry, made);
      g.nextNode !in g1.nodes && Core(g2) && (forall k :: k in g2.nodes ==> k <= g.nextNode) &&
      (g2.lastOutput == -1 || g2.lastOutput < g2.nextPin) && g2.links == g.links &&
      (forall p :: p in Pins(n) ==> g.nextPin <= p < g2.nextPin)
  {
    NewNodeFacts(g, t, registry, made);
    EmplacedOwnsPins(g, t, registry, made);
    EmplacedSound(g, t, registry, made);
    EmplacedRecorded(g, t, registry, made);
  }

  /** The invariant does not depend on the node counter or the last added
      output. */
  lemma CoreIgnoresCounters(g: Editor, lo: int, nn: int)
    requires Core(g)
    ensures Core(g.(lastOutput := lo, nextNode := nn))
  {
    var r := g.(lastOutput := lo, nextNode := nn);
    forall k | k in r.nodes
      ensures PinIndexSound(r, k) && InIndexSound(r, k) && OutIndexSound(r, k)
    {
      assert PinIndexSound(g, k) && InIndexSound(g, k) && OutIndexSound(g, k);
    }
    forall l | l in r.links
      ensures StartRecorded(r, l) && EndRecorded(r, l)
    {
      assert StartRecorded(g, l) && EndRecorded(g, l);
    }
  }

  /** The state after `_add_node` links its new node `n`. */
  function LinkNew(g2: Editor, n: Node, selected: Option<int>): (r: Editor)
    ensures r.nodes.Keys == g2.nodes.Keys && r.nextPin >= g2.nextPin && r.nextNode == g2.nextNode
  {
    match LinkSource(g2, n, selected)
    case Some(src) => AddLink(g2, src, SetMin(n.inputs))
    case None => g2
  }

  lemma LinkNewKeepsCore(g2: Editor, n: Node, selected: Option<int>)
    requires Core(g2) && (forall p :: p in n.inputs ==> p < g2.nextPin)
    requires g2.lastOutput == -1 || g2.lastOutput < g2.nextPin
    ensures Core(LinkNew(g2, n, selected))
  {
    match LinkSource(g2, n, selected)
    case Some(src) =>
      if selected.Some? && selected.value in g2.nodes && UnusedOutputs(g2.nodes[selected.value]) != {} {
        var k := selected.value;
        assert src in Pins(g2.nodes[k]);
        assert PinsOwned(g2) && PinsAhead(g2);
        assert src in g2.pinToNode && src < g2.nextPin;
      }
      AddLinkPreservesCore(g2, src, SetMin(n.inputs));
    case None =>
  }

  /** `_add_node` keeps the invariant, whatever the selection. */
  lemma AddNodePreservesValid(g: Editor, t: string, registry: map<string, EngineNodes.NodeData>,
                              selected: Option<int>, made: Option<FakeNode>)
    requires Valid(g)
    ensures Valid(AddNode(g, t, registry, selected, made))
  {
    EmplaceNodeKeepsValid(g, t, registry, made);
    var n := NewNode(g, t, registry, made).1;
    var g2 := Emplaced(g, t, registry, made);
    LinkNewKeepsCore(g2, n, selected);
    var g3 := LinkNew(g2, n, selected);
    var lo := if n.outputs == {} then -1 else SetMin(n.outputs);
    CoreIgnoresCounters(g3, lo, g.nextNode + 1);
    var r := g3.(lastOutput := lo, nextNode := g.nextNode + 1);
    assert AddNode(g, t, registry, selected, made) == r;
    assert lo == -1 || lo < r.nextPin;
    assert forall k :: k in r.nodes ==> k < r.nextNode;
    ValidOf(r);
  }

  /** `_add_node` is its steps: the node built, emplaced, linked, then the
      last added output and the node counter updated. */
  lemma AddNodeSteps(g: Editor, t: string, registry: map<string, EngineNodes.NodeData>,
                     selected: Option<int>, made: Option<FakeNode>, n: Node)
    requires n == NewNode(g, t, registry, made).1
    ensures AddNode(g, t, registry, selected, made) ==
              LinkNew(Emplaced(g, t, registry, made), n, selected).(
                lastOutput := if n.outputs == {} then -1 else SetMin(n.outputs), nextNode := g.nextNode + 1)
  {
  }

  lemma ValidOf(r: Editor)
    requires Core(r) && (forall k :: k in r.nodes ==> k < r.nextNode)
    requires r.lastOutput == -1 || r.lastOutput < r.nextPin
    ensures Valid(r)
  {
  }

  /** The pins `_add_node` allocates: as many consecutive fresh ids as the
      registry asks for (one extendable input for -1), one extendable input
      for an unregistered display node, none for an unknown type. */
  lemma NewNodePins(g: Editor, t: string, registry: map<string, EngineNodes.NodeData>, made: Option<FakeNode>)
    ensures var g1 := NewNode(g, t, registry, made).0;
      var n := NewNode(g, t, registry, made).1;
      g1.nextPin == g.nextPin + |n.inputs| + |n.outputs| &&
      (forall p :: p in n.inputs ==> g.nextPin <= p < g.nextPin + |n.inputs|) &&
      (forall p :: p in n.outputs ==> g.nextPin + |n.inputs| <= p < g1.nextPin) &&
      (t in registry ==>
         var d := registry[t];
         |n.inputs| == (if d.inputs == -1 then 1 else if d.inputs < 0 then 0 else d.inputs) &&
         |n.outputs| == (if d.outputs < 0 then 0 else d.outputs) &&
         n.extendable == (d.inputs == -1) && n.fake == made && n.ntype == d.ntype && n.displayName == d.displayName) &&
      (t !in registry && t == "display" ==> |n.inputs| == 1 && n.outputs == {} && n.extendable && n.fake.None?) &&
      (t !in registry && t != "display" ==> n.inputs == {} && n.outputs == {} && !n.extendable && n.fake.None?)
  {
    var g1 := NewNode(g, t, registry, made).0;
    var n := NewNode(g, t, registry, made).1;
    if t in registry {
      var d := registry[t];
      var ga := AddPins(g, if d.inputs == -1 then 1 else d.inputs);
      RangeSize(g.nextPin, ga.nextPin);
      RangeSize(ga.nextPin, g1.nextPin);
      assert n.inputs == Range(g.nextPin, ga.nextPin) && n.outputs == Range(ga.nextPin, g1.nextPin);
    } else if t == "display" {
      RangeSize(g.nextPin, g1.nextPin);
      assert n.inputs == Range(g.nextPin, g1.nextPin);
    }
  }

  /** Adding a node drops no link: it adds at most the one link from the
      chosen output into the new node's first input. */
  lemma AddNodeLinks(g: Editor, t: string, registry: map<string, EngineNodes.NodeData>,
                     selected: Option<int>, made: Option<FakeNode>)
    requires Valid(g)
    ensures var n := NewNode(g, t, registry, made).1;
      var src := LinkSource(Emplaced(g, t, registry, made), n, selected);
      var r := AddNode(g, t, registry, selected, made);
      r.links == if src.Some? then g.links[g.nextLink := Link(src.value, SetMin(n.inputs))] else g.links
  {
    EmplaceNodeKeepsValid(g, t, registry, made);
    var n := NewNode(g, t, registry, made).1;
    var g2 := Emplaced(g, t, registry, made);
    match LinkSource(g2, n, selected)
    case Some(src) =>
      var dst := SetMin(n.inputs);
      NewNodeFacts(g, t, registry, made);
      assert g2.nodes[g.nextNode] == n && dst in Pins(n) && n.inPinToLink == map[];
      assert PinsOwned(g2);
      AddLinkIntoFree(g2, src, dst, g.nextNode);
      assert g2.links == g.links && g2.nextLink == g.nextLink;
    case None =>
  }

  /** A link into a pin that has none is simply added. */
  lemma AddLinkIntoFree(g: Editor, s: int, e: int, k: int)
    requires Core(g) && Owner(g, e) == Some(k) && e !in g.nodes[k].inPinToLink
    ensures AddLink(g, s, e).links == g.links[g.nextLink := Link(s, e)]
  {
    AddLinkReplaces(g, s, e);
    ReplacedOwned(g, s, e, k);
  }

  /** The node `_add_node` creates sits under the old node counter, its
      first output becomes the last added output, and the nodes already
      there keep their pins. */
  lemma AddNodeCreates(g: Editor, t: string, registry: map<string, EngineNodes.NodeData>,
                       selected: Option<int>, made: Option<FakeNode>)
    requires Valid(g)
    ensures var n := NewNode(g, t, registry, made).1;
      var r := AddNode(g, t, registry, selected, made);
      r.nodes.Keys == g.nodes.Keys + {g.nextNode} && g.nextNode !in g.nodes &&
      r.nodes[g.nextNode].outputs == n.outputs && n.inputs <= r.nodes[g.nextNode].inputs &&
      r.nodes[g.nextNode].ntype == n.ntype && r.nodes[g.nextNode].fake == n.fake &&
      (r.lastOutput == if n.outputs == {} then -1 else SetMin(n.outputs)) &&
      forall k :: k in g.nodes ==> Pins(r.nodes[k]) == Pins(g.nodes[k])
  {
    EmplaceNodeKeepsValid(g, t, registry, made);
    var n := NewNode(g, t, registry, made).1;
    var g2 := Emplaced(g, t, registry, made);
    LinkNewReshapes(g, t, registry, selected, made);
    var r := AddNode(g, t, registry, selected, made);
    assert g2.nodes == NewNode(g, t, registry, made).0.nodes[g.nextNode := n];
    assert r.nodes == LinkNew(g2, n, selected).nodes;
    assert SameNode(n, r.nodes[g.nextNode]);
    forall k | k in g.nodes
      ensures Pins(r.nodes[k]) == Pins(g.nodes[k])
    {
      assert g2.nodes[k] == g.nodes[k];
      assert SameNode(g2.nodes[k], r.nodes[k]) && r.nodes[k].inputs == g2.nodes[k].inputs;
    }
  }

  /** Linking the new node changes only link indexes, and only the new node
      can gain inputs. */
  lemma LinkNewReshapes(g: Editor, t: string, registry: map<string, EngineNodes.NodeData>,
                        selected: Option<int>, made: Option<FakeNode>)
    requires Valid(g)
    ensures var n := NewNode(g, t, registry, made).1;
      var g2 := Emplaced(g, t, registry, made);
      Reshaped(g2, LinkNew(g2, n, selected), {g.nextNode})
  {
    EmplaceNodeKeepsValid(g, t, registry, made);
    var n := NewNode(g, t, registry, made).1;
    var g2 := Emplaced(g, t, registry, made);
    match LinkSource(g2, n, selected)
    case Some(src) =>
      var dst := SetMin(n.inputs);
      AddLinkNodes(g2, src, dst);
      assert g2.nodes[g.nextNode] == n && dst in Pins(n);
      assert PinsOwned(g2);
      assert Owner(g2, dst) == Some(g.nextNode);
    case None =>
      ReshapedRefl(g2);
  }

  /** `m` is `n` with its link indexes changed and possibly more inputs. */
  predicate SameNode(n: Node, m: Node)
  {
    m == n.(linkToPin := m.linkToPin, inPinToLink := m.inPinToLink, outPinToLinks := m.outPinToLinks,
            inputs := m.inputs) && n.inputs <= m.inputs
  }

  /** `b` has the nodes of `a`, changed only in their link indexes, and only
      the nodes in `grow` with more inputs. */
  predicate Reshaped(a: Editor, b: Editor, grow: set<int>)
  {
    a.nodes.Keys == b.nodes.Keys &&
    forall k :: k in a.nodes ==>
      SameNode(a.nodes[k], b.nodes[k]) && (k !in grow ==> b.nodes[k].inputs == a.nodes[k].inputs)
  }

  lemma ReshapedRefl(a: Editor)
    ensures Reshaped(a, a, {})
  {
    forall k | k in a.nodes
      ensures SameNode(a.nodes[k], a.nodes[k])
    {
    }
  }

  lemma ReshapedTrans(a: Editor, b: Editor, c: Editor, x: set<int>, y: set<int>)
    requires Reshaped(a, b, x) && Reshaped(b, c, y)
    ensures Reshaped(a, c, x + y)
  {
    forall k | k in a.nodes
      ensures SameNode(a.nodes[k], c.nodes[k]) && (k !in x + y ==> c.nodes[k].inputs == a.nodes[k].inputs)
    {
      assert SameNode(a.nodes[k], b.nodes[k]) && SameNode(b.nodes[k], c.nodes[k]);
    }
  }

  lemma UnlinkStartReshapes(g: Editor, id: int, pin: int)
    ensures Reshaped(g, UnlinkStart(g, id, pin), {})
  {
    forall k | k in g.nodes
      ensures SameNode(g.nodes[k], UnlinkStart(g, id, pin).nodes[k]) &&
              UnlinkStart(g, id, pin).nodes[k].inputs == g.nodes[k].inputs
    {
      UnlinkStartAt(g, id, pin, k);
    }
  }

  lemma UnlinkEndReshapes(g: Editor, id: int, pin: int)
    ensures Reshaped(g, UnlinkEnd(g, id, pin), {})
  {
    forall k | k in g.nodes
      ensures SameNode(g.nodes[k], UnlinkEnd(g, id, pin).nodes[k]) &&
              UnlinkEnd(g, id, pin).nodes[k].inputs == g.nodes[k].inputs
    {
      UnlinkEndAt(g, id, pin, k);
    }
  }

  /** `_remove_link` changes only link indexes. */
  lemma RemoveLinkReshapes(g: Editor, id: int)
    ensures Reshaped(g, RemoveLink(g, id), {})
  {
    if id in g.links {
      var g1 := UnlinkStart(g, id, g.links[id].start);
      var g2 := UnlinkEnd(g1, id, g.links[id].end);
      UnlinkStartReshapes(g, id, g.links[id].start);
      UnlinkEndReshapes(g1, id, g.links[id].end);
      ReshapedTrans(g, g1, g2, {}, {});
      assert RemoveLink(g, id).nodes == g2.nodes;
    } else {
      ReshapedRefl(g);
      assert RemoveLink(g, id).nodes == g.nodes;
    }
  }

  lemma LinkStartReshapes(g: Editor, id: int, s: int)
    ensures Reshaped(g, LinkStart(g, id, s), {})
  {
    forall k | k in g.nodes
      ensures SameNode(g.nodes[k], LinkStart(g, id, s).nodes[k]) &&
              LinkStart(g, id, s).nodes[k].inputs == g.nodes[k].inputs
    {
      LinkStartAt(g, id, s, k);
    }
  }

  lemma AttachEndReshapes(g: Editor, id: int, e: int, k: int)
    requires k in g.nodes
    ensures Reshaped(g, g.(nodes := g.nodes[k := AttachEnd(g.nodes[k], id, e)]), {})
  {
    var r := g.(nodes := g.nodes[k := AttachEnd(g.nodes[k], id, e)]);
    forall j | j in g.nodes
      ensures SameNode(g.nodes[j], r.nodes[j]) && r.nodes[j].inputs == g.nodes[j].inputs
    {
      if j == k {
        assert r.nodes[j] == AttachEnd(g.nodes[k], id, e);
      } else {
        assert r.nodes[j] == g.nodes[j];
      }
    }
  }

  lemma ExtendReshapes(g: Editor, k: int)
    requires k in g.nodes
    ensures Reshaped(g, Extend(g, k), {k})
  {
    var r := Extend(g, k);
    forall j | j in g.nodes
      ensures SameNode(g.nodes[j], r.nodes[j]) && (j != k ==> r.nodes[j].inputs == g.nodes[j].inputs)
    {
      if j != k {
        assert r.nodes[j] == g.nodes[j];
      }
    }
  }

  /** `_add_link(s, e)` changes only link indexes, except that the owner of
      `e` may gain inputs. */
  lemma AddLinkNodes(g: Editor, s: int, e: int)
    ensures Reshaped(g, AddLink(g, s, e), if Owner(g, e).Some? then {Owner(g, e).value} else {})
  {
    var nl := g.nextLink;
    var g1 := g.(links := if nl in g.links then g.links else g.links[nl := Link(s, e)]);
    var g2 := LinkStart(g1, nl, s);
    LinkStartReshapes(g1, nl, s);
    assert g1.nodes == g.nodes;
    assert Reshaped(g, g2, {});
    assert Owner(g2, e) == Owner(g, e);
    var r := AddLink(g, s, e);
    assert r.nodes == LinkEnd(g2, nl, e).nodes;
    match Owner(g2, e)
    case None =>
    case Some(ke) =>
      var ga := if e in g2.nodes[ke].inPinToLink then RemoveLink(g2, g2.nodes[ke].inPinToLink[e]) else g2;
      if e in g2.nodes[ke].inPinToLink {
        RemoveLinkReshapes(g2, g2.nodes[ke].inPinToLink[e]);
      } else {
        ReshapedRefl(g2);
      }
      ReshapedTrans(g, g2, ga, {}, {});
      var gb := ga.(nodes := ga.nodes[ke := AttachEnd(ga.nodes[ke], nl, e)]);
      AttachEndReshapes(ga, nl, e, ke);
      ReshapedTrans(g, ga, gb, {}, {});
      ExtendReshapes(gb, ke);
      ReshapedTrans(g, gb, Extend(gb, ke), {}, {ke});
  }

  // ---------------------------------------------------------------------
  // Deleting a node.

  /** `_remove_link` applied to each id in turn. */
  function RemoveLinks(g: Editor, ids: seq<int>): (r: Editor)
    ensures forall l :: l in r.links <==> l in g.links && l !in ids
    ensures forall l :: l in r.links ==> r.links[l] == g.links[l]
    ensures r.nodes.Keys == g.nodes.Keys && r == g.(nodes := r.nodes, links := r.links)
    ensures r.nextPin == g.nextPin && r.nextNode == g.nextNode && r.lastOutput == g.lastOutput
    ensures r.pinToNode == g.pinToNode && r.displayNode == g.displayNode
    decreases |ids|
  {
    if ids == [] then g else RemoveLinks(RemoveLink(g, ids[0]), ids[1..])
  }

  lemma {:induction false} RemoveLinksPreservesCore(g: Editor, ids: seq<int>)
    requires Core(g)
    ensures Core(RemoveLinks(g, ids)) && Reshaped(g, RemoveLinks(g, ids), {})
    decreases |ids|
  {
    if ids == [] {
      ReshapedRefl(g);
    } else {
      var g1 := RemoveLink(g, ids[0]);
      RemoveLinkPreservesCore(g, ids[0]);
      RemoveLinkReshapes(g, ids[0]);
      RemoveLinksPreservesCore(g1, ids[1..]);
      ReshapedTrans(g, g1, RemoveLinks(g1, ids[1..]), {}, {});
    }
  }

  /** The state after deleting node `k` once its links are gone: its pins
      are forgotten, the last added output is reset when it was one of
      them, and the node is erased. */
  function ErasePins(g: Editor, k: int): (r: Editor)
    requires k in g.nodes
    ensures r.nodes.Keys == g.nodes.Keys - {k} && r.links == g.links
  {
    var n := g.nodes[k];
    g.(pinToNode := g.pinToNode - Pins(n), lastOutput := if g.lastOutput in n.outputs then -1 else g.lastOutput,
       nodes := g.nodes - {k})
  }

  /** Node deletion in `draw`: for a known node other than the display
      node, every link the node records is removed (in ascending id order,
      from a copy of the index), then its pins and the node are erased. */
  function DeleteNode(g: Editor, k: int): (r: Editor)
  {
    if k == g.displayNode || k !in g.nodes then g
    else ErasePins(RemoveLinks(g, Sorted(g.nodes[k].linkToPin.Keys)), k)
  }

  /** Under the invariant the links node `k` records are exactly the links
      with an end at one of its pins. */
  lemma RecordedLinks(g: Editor, k: int, l: int)
    requires Core(g) && k in g.nodes && l in g.links
    ensures l in g.nodes[k].linkToPin <==>
              g.links[l].start in Pins(g.nodes[k]) || g.links[l].end in Pins(g.nodes[k])
  {
    assert PinIndexSound(g, k) && StartRecorded(g, l) && EndRecorded(g, l);
  }

  /** No link has an end at a pin node `k` owns. */
  predicate Untouched(g: Editor, k: int)
  {
    forall l :: l in g.links ==> Owner(g, g.links[l].start) != Some(k) && Owner(g, g.links[l].end) != Some(k)
  }

  /** After its links are removed, no link has an end at a pin of `k`. */
  lemma UnlinkedNode(g: Editor, k: int)
    requires Core(g) && k in g.nodes
    ensures Untouched(RemoveLinks(g, Sorted(g.nodes[k].linkToPin.Keys)), k)
  {
    var ids := Sorted(g.nodes[k].linkToPin.Keys);
    var g1 := RemoveLinks(g, ids);
    forall l | l in g1.links
      ensures Owner(g1, g1.links[l].start) != Some(k) && Owner(g1, g1.links[l].end) != Some(k)
    {
      RecordedLinks(g, k, l);
      assert l !in ids;
      RemoveLinksOwner(g, ids, g.links[l].start);
      RemoveLinksOwner(g, ids, g.links[l].end);
    }
  }

  lemma RemoveLinksOwner(g: Editor, ids: seq<int>, p: int)
    ensures Owner(RemoveLinks(g, ids), p) == Owner(g, p)
  {
  }

  lemma ErasedValid(g: Editor, k: int)
    requires Core(g) && k in g.nodes
    requires Untouched(g, k)
    requires (forall j :: j in g.nodes ==> j < g.nextNode) && (g.lastOutput == -1 || g.lastOutput < g.nextPin)
    ensures Valid(ErasePins(g, k))
  {
    ErasePinsKeepsCore(g, k);
    ValidOf(ErasePins(g, k));
  }

  /** Erasing a node that no link touches keeps the invariant. */
  lemma ErasePinsKeepsCore(g: Editor, k: int)
    requires Core(g) && k in g.nodes
    requires Untouched(g, k)
    ensures Core(ErasePins(g, k))
  {
    ErasePinsOwned(g, k);
    ErasePinsRecorded(g, k);
    var r := ErasePins(g, k);
    forall j | j in r.nodes
      ensures PinIndexSound(r, j) && InIndexSound(r, j) && OutIndexSound(r, j)
    {
      ErasePinsSound(g, k, j);
    }
  }

  /** Erasing node `k` changes the owner of no pin but its own. */
  lemma ErasePinsOwner(g: Editor, k: int, p: int)
    requires PinsOwned(g) && k in g.nodes && Owner(g, p) != Some(k)
    ensures Owner(ErasePins(g, k), p) == Owner(g, p)
  {
    if p in g.pinToNode && g.pinToNode[p] in g.nodes {
      assert p !in Pins(g.nodes[k]);
    }
  }

  lemma ErasePinsOwned(g: Editor, k: int)
    requires Core(g) && k in g.nodes
    ensures PinsOwned(ErasePins(g, k)) && PinsAhead(ErasePins(g, k)) && LinkIdsAhead(ErasePins(g, k))
  {
    var r := ErasePins(g, k);
    forall j, p | j in r.nodes && p in Pins(r.nodes[j])
      ensures p in r.pinToNode && r.pinToNode[p] == j
    {
      assert p in g.pinToNode && g.pinToNode[p] == j;
      assert p !in Pins(g.nodes[k]);
    }
  }

  lemma ErasePinsRecorded(g: Editor, k: int)
    requires Core(g) && k in g.nodes
    requires Untouched(g, k)
    ensures RecordedExcept(ErasePins(g, k), {})
  {
    var r := ErasePins(g, k);
    forall l | l in r.links
      ensures StartRecorded(r, l) && EndRecorded(r, l)
    {
      assert StartRecorded(g, l) && EndRecorded(g, l);
      ErasePinsOwner(g, k, g.links[l].start);
      ErasePinsOwner(g, k, g.links[l].end);
    }
  }

  lemma ErasePinsSound(g: Editor, k: int, j: int)
    requires Core(g) && k in g.nodes && j in g.nodes && j != k
    requires Untouched(g, k)
    ensures j in ErasePins(g, k).nodes
    ensures PinIndexSound(ErasePins(g, k), j) && InIndexSound(ErasePins(g, k), j) && OutIndexSound(ErasePins(g, k), j)
  {
    var r := ErasePins(g, k);
    var n := g.nodes[j];
    assert r.nodes[j] == n;
    assert PinIndexSound(g, j) && InIndexSound(g, j) && OutIndexSound(g, j);
    forall l | l in n.linkToPin
      ensures l in r.links && (Owner(r, r.links[l].start) == Some(j) || Owner(r, r.links[l].end) == Some(j))
    {
      ErasePinsOwner(g, k, g.links[l].start);
      ErasePinsOwner(g, k, g.links[l].end);
    }
    forall p | p in n.inPinToLink
      ensures Owner(r, p) == Some(j)
    {
      ErasePinsOwner(g, k, p);
    }
    forall p, l | p in n.outPinToLinks && l in n.outPinToLinks[p]
      ensures l in r.links && r.links[l].start == p && Owner(r, p) == Some(j)
    {
      assert l in g.links && g.links[l].start == p && Owner(g, p) == Some(j);
      ErasePinsOwner(g, k, p);
    }
    assert OutIndexSound(r, j);
  }

  /** Deleting a node keeps the invariant. */
  lemma DeletePreservesValid(g: Editor, k: int)
    requires Valid(g)
    ensures Valid(DeleteNode(g, k))
  {
    if k != g.displayNode && k in g.nodes {
      var g1 := RemoveLinks(g, Sorted(g.nodes[k].linkToPin.Keys));
      RemoveLinksPreservesCore(g, Sorted(g.nodes[k].linkToPin.Keys));
      UnlinkedNode(g, k);
      assert forall j :: j in g1.nodes ==> j < g1.nextNode;
      assert g1.lastOutput == -1 || g1.lastOutput < g1.nextPin;
      ErasedValid(g1, k);
      assert DeleteNode(g, k) == ErasePins(g1, k);
    } else {
      assert DeleteNode(g, k) == g;
    }
  }

  /** Deleting a node other than the display node erases it, its pins and
      exactly the links with an end at one of its pins, and resets the last
      added output when that was one of its outputs; the other nodes keep
      their pins. */
  lemma DeleteRemoves(g: Editor, k: int)
    requires Valid(g) && k in g.nodes && k != g.displayNode
    ensures var r := DeleteNode(g, k);
      var n := g.nodes[k];
      r.nodes.Keys == g.nodes.Keys - {k} &&
      (forall p :: p in r.pinToNode <==> p in g.pinToNode && p !in Pins(n)) &&
      (forall l :: l in r.links <==> l in g.links && g.links[l].start !in Pins(n) && g.links[l].end !in Pins(n)) &&
      (forall l :: l in r.links ==> r.links[l] == g.links[l]) &&
      (r.lastOutput == if g.lastOutput in n.outputs then -1 else g.lastOutput) &&
      (forall j :: j in r.nodes ==> Pins(r.nodes[j]) == Pins(g.nodes[j]))
  {
    var g1 := RemoveLinks(g, Sorted(g.nodes[k].linkToPin.Keys));
    RemoveLinksPreservesCore(g, Sorted(g.nodes[k].linkToPin.Keys));
    assert g1.nodes[k].outputs == g.nodes[k].outputs && Pins(g1.nodes[k]) == Pins(g.nodes[k]);
    forall l | l in g.links
      ensures l in g1.links <==> g.links[l].start !in Pins(g.nodes[k]) && g.links[l].end !in Pins(g.nodes[k])
    {
      RecordedLinks(g, k, l);
    }
    forall j | j in g1.nodes && j != k
      ensures Pins(g1.nodes[j]) == Pins(g.nodes[j])
    {
      assert SameNode(g.nodes[j], g1.nodes[j]) && g1.nodes[j].inputs == g.nodes[j].inputs;
    }
  }

  // ---------------------------------------------------------------------
  // `_add_node` as written: the selected-node branch does not check that
  // the new node has an input before linking into its first one.

  /** The link source the selected-node branch of `_add_node` picks as
      written: the first unused output of the selected node, whatever the
      new node's inputs. */
  function SelectedSourceAsWritten(g: Editor, selected: Option<int>): (r: Option<int>)
    ensures r.Some? <==> selected.Some? && selected.value in g.nodes && UnusedOutputs(g.nodes[selected.value]) != {}
  {
    if selected.Some? && selected.value in g.nodes && UnusedOutputs(g.nodes[selected.value]) != {} then
      Some(SetMin(UnusedOutputs(g.nodes[selected.value])))
    else None
  }

  /** As written, `_add_node` links into `*node.inputs.begin()` of an empty
      set exactly when this holds. */
  predicate DerefsNoInput(g: Editor, n: Node, selected: Option<int>)
  {
    SelectedSourceAsWritten(g, selected).Some? && n.inputs == {}
  }

  /** A node of a registered source type with no inputs and one output. */
  function SquaresType(): EngineNodes.NodeData
  {
    EngineNodes.NodeData("squares", "squares", 0, 1)
  }

  /** An editor holding one such node with its output unlinked. */
  function OneSource(): Editor
  {
    Editor(1, 1, 0, map[0 := Node("squares", "squares", {}, {0}, map[], map[], map[], false, None, false, false)],
           map[0 := 0], map[], -1, 0)
  }

  /** With that node selected, adding a second node of the same type makes
      the as-written branch link into the first input of a node with none;
      the corrected `LinkSource` links nothing. */
  lemma AddNodeDerefsNoInput()
    ensures Valid(OneSource())
    ensures var n := NewNode(OneSource(), "squares", map["squares" := SquaresType()], None).1;
      DerefsNoInput(Emplaced(OneSource(), "squares", map["squares" := SquaresType()], None), n, Some(0)) &&
      LinkSource(Emplaced(OneSource(), "squares", map["squares" := SquaresType()], None), n, Some(0)).None?
  {
    var g := OneSource();
    var reg := map["squares" := SquaresType()];
    assert Range(1, 1) == {};
    assert Range(1, 2) == {1};
    var n := NewNode(g, "squares", reg, None).1;
    assert n.inputs == {};
    var g2 := Emplaced(g, "squares", reg, None);
    assert g2.nodes[0] == g.nodes[0];
    assert 0 in UnusedOutputs(g2.nodes[0]);
  }
}
