// `NodeWindow::build_nodes` (src/ui/node_window.cpp): the walk from the
// display node along the links into each node's inputs, and the wiring of
// the stand-in nodes it reaches, which are handed to the graph builder.
module NodeBuild {
  import opened Wrappers
  import opened Strings
  import opened Parameters
  import opened ParameterCache
  import opened MakeParam
  import opened ParamMaps
  import opened NodeGraph
  import opened FakeNodes
  import opened NodeWindows

  /** Link `l`, recorded by node `n`, is known, ends at one of `n`'s inputs
      and starts at a known pin, owned by `j`. */
  predicate FeedsFrom(g: Editor, n: Node, l: int, j: int)
  {
    l in g.links && g.links[l].end in n.inputs && g.links[l].start in g.pinToNode &&
    g.pinToNode[g.links[l].start] == j
  }

  /** What one recorded link contributes to the inputs of `n`. */
  function Feed(g: Editor, n: Node, l: int): (r: seq<int>)
    ensures |r| <= 1 && forall j :: j in r <==> FeedsFrom(g, n, l, j)
  {
    if l in g.links && g.links[l].end in n.inputs && g.links[l].start in g.pinToNode
    then [g.pinToNode[g.links[l].start]] else []
  }

  function IncomingOf(g: Editor, n: Node, ls: seq<int>): seq<int>
    decreases |ls|
  {
    if ls == [] then [] else IncomingOf(g, n, ls[..|ls| - 1]) + Feed(g, n, ls[|ls| - 1])
  }

  /** The nodes feeding node `k`, one entry per link into one of its inputs,
      in ascending link id order. */
  function Incoming(g: Editor, k: int): seq<int>
    requires k in g.nodes
  {
    IncomingOf(g, g.nodes[k], Sorted(g.nodes[k].linkToPin.Keys))
  }

  lemma {:induction false} IncomingOfSpec(g: Editor, n: Node, ls: seq<int>, j: int)
    ensures j in IncomingOf(g, n, ls) <==> exists i :: 0 <= i < |ls| && FeedsFrom(g, n, ls[i], j)
    decreases |ls|
  {
    if ls != [] {
      var last := |ls| - 1;
      IncomingOfSpec(g, n, ls[..last], j);
      if j in IncomingOf(g, n, ls) {
        if j in IncomingOf(g, n, ls[..last]) {
          var i :| 0 <= i < last && FeedsFrom(g, n, ls[..last][i], j);
          assert ls[..last][i] == ls[i];
        } else {
          assert FeedsFrom(g, n, ls[last], j);
        }
      } else {
        forall i | 0 <= i < |ls|
          ensures !FeedsFrom(g, n, ls[i], j)
        {
          if i < last {
            assert ls[..last][i] == ls[i];
          }
        }
      }
    }
  }

  /** `j` feeds node `k` exactly when a link `k` records runs from a pin of
      `j` into one of `k`'s inputs. */
  lemma IncomingSpec(g: Editor, k: int, j: int)
    requires k in g.nodes
    ensures j in Incoming(g, k) <==>
              exists l :: l in g.nodes[k].linkToPin && FeedsFrom(g, g.nodes[k], l, j)
  {
    var ls := Sorted(g.nodes[k].linkToPin.Keys);
    IncomingOfSpec(g, g.nodes[k], ls, j);
    if j in Incoming(g, k) {
      var i :| 0 <= i < |ls| && FeedsFrom(g, g.nodes[k], ls[i], j);
      assert ls[i] in g.nodes[k].linkToPin;
    } else {
      forall l | l in g.nodes[k].linkToPin
        ensures !FeedsFrom(g, g.nodes[k], l, j)
      {
        var i :| 0 <= i < |ls| && ls[i] == l;
      }
    }
  }

  /** A set of node ids that holds every node feeding one of its nodes. */
  predicate Closed(g: Editor, s: set<int>)
  {
    forall k :: k in s && k in g.nodes ==> forall j :: j in Incoming(g, k) ==> j in s
  }

  /** `x` is in every closed set holding the display node. */
  ghost predicate Forced(g: Editor, x: int)
  {
    forall s {:trigger Closed(g, s)} :: Closed(g, s) && g.displayNode in s ==> x in s
  }

  /** When every pin's owner exists, the existing nodes form a closed set. */
  lemma NodesClosed(g: Editor)
    requires PinsOwned(g)
    ensures Closed(g, g.nodes.Keys)
  {
    forall k, j | k in g.nodes && j in Incoming(g, k)
      ensures j in g.nodes
    {
      IncomingSpec(g, k, j);
    }
  }

  /** Every node that feeds another has a stand-in: only those are ever
      entered in the map of built nodes. */
  predicate SourcesFaked(g: Editor)
  {
    forall k, j :: k in g.nodes && j in Incoming(g, k) && j in g.nodes ==> g.nodes[j].fake.Some?
  }

  /** No two nodes share a stand-in. */
  predicate FakesDistinct(g: Editor)
  {
    forall a, b :: a in g.nodes && b in g.nodes && a != b && g.nodes[a].fake.Some? && g.nodes[b].fake.Some? ==>
      g.nodes[a].fake.value != g.nodes[b].fake.value
  }

  /** The stand-ins of the nodes of `s`. */
  function FakeMap(g: Editor, s: set<int>): map<int, FakeNode>
  {
    map k | k in s && k in g.nodes && g.nodes[k].fake.Some? :: g.nodes[k].fake.value
  }

  function AllFakes(g: Editor): set<FakeNode>
  {
    set k | k in g.nodes && g.nodes[k].fake.Some? :: g.nodes[k].fake.value
  }

  /** The feeding nodes of each node of `s`. */
  function IncomingMap(g: Editor, s: set<int>): map<int, seq<int>>
  {
    map k | k in s && k in g.nodes :: Incoming(g, k)
  }

  predicate Injective(m: map<int, FakeNode>)
  {
    forall a, b :: a in m && b in m && a != b ==> m[a] != m[b]
  }

  /** The stand-ins of a sequence of ids. */
  function FakesOf(m: map<int, FakeNode>, s: seq<int>): (r: seq<FakeNode>)
    requires forall i :: 0 <= i < |s| ==> s[i] in m
    ensures |r| == |s|
    decreases |s|
  {
    if s == [] then [] else FakesOf(m, s[..|s| - 1]) + [m[s[|s| - 1]]]
  }

  lemma {:induction false} FakesOfAppend(m: map<int, FakeNode>, s: seq<int>, t: seq<int>)
    requires forall i :: 0 <= i < |s| ==> s[i] in m
    requires forall i :: 0 <= i < |t| ==> t[i] in m
    ensures FakesOf(m, s + t) == FakesOf(m, s) + FakesOf(m, t)
    decreases |t|
  {
    if t != [] {
      var last := |t| - 1;
      assert (s + t)[..|s + t| - 1] == s + t[..last];
      FakesOfAppend(m, s, t[..last]);
    } else {
      assert s + t == s;
    }
  }

  /** `c` copies of a stand-in. */
  function Copies(f: FakeNode, c: nat): (r: seq<FakeNode>)
    ensures |r| == c
  {
    if c == 0 then [] else Copies(f, c - 1) + [f]
  }

  lemma {:induction false} FakesOfRepeat(m: map<int, FakeNode>, k: int, c: nat)
    requires k in m
    ensures FakesOf(m, Repeat(k, c)) == Copies(m[k], c)
  {
    if c > 0 {
      assert Repeat(k, c)[..c - 1] == Repeat(k, c - 1);
      FakesOfRepeat(m, k, c - 1);
    }
  }

  /** How often `x` occurs in `s`. */
  function Occ(s: seq<int>, x: int): nat
    decreases |s|
  {
    if s == [] then 0 else Occ(s[..|s| - 1], x) + (if s[|s| - 1] == x then 1 else 0)
  }

  lemma {:induction false} OccPositive(s: seq<int>, x: int)
    ensures Occ(s, x) > 0 <==> x in s
    decreases |s|
  {
    if s != [] {
      OccPositive(s[..|s| - 1], x);
      assert s == s[..|s| - 1] + [s[|s| - 1]];
    }
  }

  function Repeat(k: int, c: nat): (r: seq<int>)
    ensures |r| == c && forall i :: 0 <= i < c ==> r[i] == k
  {
    if c == 0 then [] else Repeat(k, c - 1) + [k]
  }

  /** The consumers of `x` in the order `build_nodes` links them: each node
      of `keys` in turn, once per entry of `x` among its feeding nodes. */
  function Consumers(inc: map<int, seq<int>>, keys: seq<int>, x: int): (r: seq<int>)
    requires forall i :: 0 <= i < |keys| ==> keys[i] in inc
    ensures forall i :: 0 <= i < |r| ==> r[i] in keys
    decreases |keys|
  {
    if keys == [] then []
    else Consumers(inc, keys[..|keys| - 1], x) + Repeat(keys[|keys| - 1], Occ(inc[keys[|keys| - 1]], x))
  }

  lemma {:induction false} ConsumersSound(inc: map<int, seq<int>>, keys: seq<int>, x: int, k: int)
    requires forall i :: 0 <= i < |keys| ==> keys[i] in inc
    requires k in Consumers(inc, keys, x)
    ensures exists i :: 0 <= i < |keys| && keys[i] == k && x in inc[k]
    decreases |keys|
  {
    var last := |keys| - 1;
    var c := Consumers(inc, keys[..last], x);
    if k in c {
      ConsumersSound(inc, keys[..last], x, k);
      var i :| 0 <= i < last && keys[..last][i] == k && x in inc[k];
      assert keys[i] == k;
    } else {
      assert k == keys[last];
      OccPositive(inc[keys[last]], x);
    }
  }

  lemma {:induction false} ConsumersComplete(inc: map<int, seq<int>>, keys: seq<int>, x: int, i: int)
    requires forall i :: 0 <= i < |keys| ==> keys[i] in inc
    requires 0 <= i < |keys| && x in inc[keys[i]]
    ensures keys[i] in Consumers(inc, keys, x)
    decreases |keys|
  {
    var last := |keys| - 1;
    var c := Consumers(inc, keys[..last], x);
    if i == last {
      OccPositive(inc[keys[last]], x);
      assert Consumers(inc, keys, x)[|c|] == keys[i];
    } else {
      assert keys[..last][i] == keys[i];
      ConsumersComplete(inc, keys[..last], x, i);
      assert Consumers(inc, keys, x)[..|c|] == c;
    }
  }

  /** A node gets a consumer exactly when it feeds one of the built nodes. */
  lemma ConsumersSpec(inc: map<int, seq<int>>, keys: seq<int>, x: int, k: int)
    requires forall i :: 0 <= i < |keys| ==> keys[i] in inc
    ensures k in Consumers(inc, keys, x) <==> exists i :: 0 <= i < |keys| && keys[i] == k && x in inc[k]
  {
    if k in Consumers(inc, keys, x) {
      ConsumersSound(inc, keys, x, k);
    }
    if exists i :: 0 <= i < |keys| && keys[i] == k && x in inc[k] {
      var i :| 0 <= i < |keys| && keys[i] == k && x in inc[k];
      ConsumersComplete(inc, keys, x, i);
    }
  }

  /** The parameter map with the two block parameters in group "_". */
  function WithBlocks(m: map<string, map<string, Parameter>>, fsb: Parameter, feb: Parameter): map<string, map<string, Parameter>>
  {
    WithParam(WithParam(m, "frame_start_block", fsb), "frame_end_block", feb)
  }

  /** A parameter map with `p` put under `name` in group "_". */
  function WithParam(m: map<string, map<string, Parameter>>, name: string, p: Parameter): map<string, map<string, Parameter>>
  {
    m["_" := Group(m, "_")[name := p]]
  }

  /** A cache entry the block parameters may reuse is a valid frame. */
  predicate FrameCached(cache: ParameterCache, key: string)
    reads cache, if key in cache.params then {cache.params[key]} else {}
  {
    key in cache.params ==> cache.params[key].ptype == PFrame && cache.params[key].Valid()
  }

  function Cached(cache: ParameterCache, key: string): set<Parameter>
    reads cache
  {
    if key in cache.params then {cache.params[key]} else {}
  }

  /** The two shared block parameters of a window, made with the window's
      name and number as hash and force-set to the first block's bounds. */
  method BlockParams(cache: ParameterCache, st: Storage, hash: string, block: FrameInterval)
    returns (fsb: Parameter, feb: Parameter)
    requires StorageFits(PFrame, st)
    requires FrameCached(cache, Key(PFrame, hash, "frame_start_block"))
    requires FrameCached(cache, Key(PFrame, hash, "frame_end_block"))
    modifies cache, Cached(cache, Key(PFrame, hash, "frame_start_block")), Cached(cache, Key(PFrame, hash, "frame_end_block"))
    ensures Key(PFrame, hash, "frame_start_block") in cache.params && cache.params[Key(PFrame, hash, "frame_start_block")] == fsb
    ensures Key(PFrame, hash, "frame_end_block") in cache.params && cache.params[Key(PFrame, hash, "frame_end_block")] == feb
    ensures forall k :: k in old(cache.params) ==> k in cache.params && cache.params[k] == old(cache.params[k])
    ensures feb.value == FrameAt(block.end.index) && (fsb != feb ==> fsb.value == FrameAt(block.start.index))
    ensures fsb.ptype == PFrame && feb.ptype == PFrame && fsb.Valid() && feb.Valid()
  {
    fsb := MakeCached(cache, PFrame, st, hash, "frame_start_block", 0, {});
    fsb.SetForce(FrameAt(block.start.index));
    feb := MakeCached(cache, PFrame, st, hash, "frame_end_block", 0, {});
    feb.SetForce(FrameAt(block.end.index));
  }

  /** `flush` on every built node. */
  method FlushAll(keys: seq<int>, nodeMap: map<int, FakeNode>)
    requires forall x :: x in nodeMap ==> x in keys
    requires forall i :: 0 <= i < |keys| ==> keys[i] in nodeMap
    modifies nodeMap.Values
    ensures forall x :: x in nodeMap ==> nodeMap[x].inputs == [] && nodeMap[x].outputs == []
    ensures ParamsOf(nodeMap) == old(ParamsOf(nodeMap)) && RangesOf(nodeMap) == old(RangesOf(nodeMap))
  {
    var i := 0;
    while i < |keys|
      invariant 0 <= i <= |keys|
      invariant forall x :: x in nodeMap ==> nodeMap[x].paramMap == old(nodeMap[x].paramMap) && nodeMap[x].range == old(nodeMap[x].range)
      invariant forall j :: 0 <= j < i ==> nodeMap[keys[j]].inputs == [] && nodeMap[keys[j]].outputs == []
    {
      nodeMap[keys[i]].Flush();
      i := i + 1;
    }
    forall x | x in nodeMap
      ensures nodeMap[x].inputs == [] && nodeMap[x].outputs == []
    {
      var j :| 0 <= j < |keys| && keys[j] == x;
    }
    forall x | x in nodeMap
      ensures ParamsOf(nodeMap)[x] == old(ParamsOf(nodeMap))[x] && RangesOf(nodeMap)[x] == old(RangesOf(nodeMap))[x]
    {
      assert nodeMap[x].paramMap == old(nodeMap[x].paramMap) && nodeMap[x].range == old(nodeMap[x].range);
    }
  }

  /** The inputs, outputs, parameters and ranges of the built nodes. */
  function InputsOf(m: map<int, FakeNode>): map<int, seq<FakeNode>>
    reads m.Values
  {
    map x | x in m :: m[x].inputs
  }

  function OutputsOf(m: map<int, FakeNode>): map<int, seq<FakeNode>>
    reads m.Values
  {
    map x | x in m :: m[x].outputs
  }

  function ParamsOf(m: map<int, FakeNode>): map<int, map<string, map<string, Parameter>>>
    reads m.Values
  {
    map x | x in m :: m[x].paramMap
  }

  function RangesOf(m: map<int, FakeNode>): map<int, FrameRange>
    reads m.Values
  {
    map x | x in m :: m[x].range
  }

  /** Every entry of the feeding lists is a built node. */
  predicate FedByBuilt(m: map<int, FakeNode>, inc: map<int, seq<int>>)
  {
    forall x, i :: x in inc && 0 <= i < |inc[x]| ==> inc[x][i] in m
  }

  predicate Distinct(s: seq<int>)
  {
    forall i, j :: 0 <= i < j < |s| ==> s[i] != s[j]
  }

  /** `base` with one `f` appended at each entry of `s` in turn. */
  function Grow(base: map<int, seq<FakeNode>>, f: FakeNode, s: seq<int>): (r: map<int, seq<FakeNode>>)
    requires forall i :: 0 <= i < |s| ==> s[i] in base
    ensures r.Keys == base.Keys
    decreases |s|
  {
    if s == [] then base
    else
      var r := Grow(base, f, s[..|s| - 1]);
      r[s[|s| - 1] := r[s[|s| - 1]] + [f]]
  }

  lemma {:induction false} GrowAt(base: map<int, seq<FakeNode>>, f: FakeNode, s: seq<int>, x: int)
    requires forall i :: 0 <= i < |s| ==> s[i] in base
    requires x in base
    ensures Grow(base, f, s)[x] == base[x] + Copies(f, Occ(s, x))
    decreases |s|
  {
    if s != [] {
      GrowAt(base, f, s[..|s| - 1], x);
    }
  }

  /** The inputs after the first pass over `ks`: each node of `ks` gains
      the stand-ins of its feeding nodes. */
  function InputsAfter(base: map<int, seq<FakeNode>>, m: map<int, FakeNode>, inc: map<int, seq<int>>, ks: seq<int>)
    : (r: map<int, seq<FakeNode>>)
    requires forall i :: 0 <= i < |ks| ==> ks[i] in base && ks[i] in inc
    requires FedByBuilt(m, inc)
    ensures r.Keys == base.Keys
    decreases |ks|
  {
    if ks == [] then base
    else
      var r := InputsAfter(base, m, inc, ks[..|ks| - 1]);
      var k := ks[|ks| - 1];
      r[k := r[k] + FakesOf(m, inc[k])]
  }

  /** The outputs after the pass over `ks`: each feeding node gains the
      stand-in of the node it feeds, once per link. */
  function OutputsAfter(base: map<int, seq<FakeNode>>, m: map<int, FakeNode>, inc: map<int, seq<int>>, ks: seq<int>)
    : (r: map<int, seq<FakeNode>>)
    requires forall i :: 0 <= i < |ks| ==> ks[i] in m && ks[i] in inc
    requires FedByBuilt(m, inc) && m.Keys <= base.Keys
    ensures r.Keys == base.Keys
    decreases |ks|
  {
    if ks == [] then base
    else
      var k := ks[|ks| - 1];
      Grow(OutputsAfter(base, m, inc, ks[..|ks| - 1]), m[k], inc[k])
  }

  /** A map with the entries of `ks` set to `v`. */
  function SetAt<V>(base: map<int, V>, ks: seq<int>, v: V): (r: map<int, V>)
    ensures r.Keys == base.Keys + set i | 0 <= i < |ks| :: ks[i]
    decreases |ks|
  {
    if ks == [] then base else SetAt(base, ks[..|ks| - 1], v)[ks[|ks| - 1] := v]
  }

  /** The parameter maps with the block parameters added at `ks`. */
  function ParamsAfter(base: map<int, map<string, map<string, Parameter>>>, ks: seq<int>, fsb: Parameter, feb: Parameter)
    : (r: map<int, map<string, map<string, Parameter>>>)
    requires forall i :: 0 <= i < |ks| ==> ks[i] in base
    ensures r.Keys == base.Keys
    decreases |ks|
  {
    if ks == [] then base
    else
      var r := ParamsAfter(base, ks[..|ks| - 1], fsb, feb);
      var k := ks[|ks| - 1];
      r[k := WithBlocks(r[k], fsb, feb)]
  }

  lemma {:induction false} InputsAfterAt(base: map<int, seq<FakeNode>>, m: map<int, FakeNode>, inc: map<int, seq<int>>,
                                         ks: seq<int>, x: int)
    requires forall i :: 0 <= i < |ks| ==> ks[i] in base && ks[i] in inc
    requires FedByBuilt(m, inc) && Distinct(ks) && x in base
    ensures x in ks ==> x in inc && InputsAfter(base, m, inc, ks)[x] == base[x] + FakesOf(m, inc[x])
    ensures x !in ks ==> InputsAfter(base, m, inc, ks)[x] == base[x]
    decreases |ks|
  {
    if ks != [] {
      var last := |ks| - 1;
      assert ks == ks[..last] + [ks[last]];
      InputsAfterAt(base, m, inc, ks[..last], x);
    }
  }

  lemma {:induction false} ParamsAfterAt(base: map<int, map<string, map<string, Parameter>>>, ks: seq<int>,
                                         fsb: Parameter, feb: Parameter, x: int)
    requires forall i :: 0 <= i < |ks| ==> ks[i] in base
    requires Distinct(ks) && x in base
    ensures x in ks ==> ParamsAfter(base, ks, fsb, feb)[x] == WithBlocks(base[x], fsb, feb)
    ensures x !in ks ==> ParamsAfter(base, ks, fsb, feb)[x] == base[x]
    decreases |ks|
  {
    if ks != [] {
      var last := |ks| - 1;
      assert ks == ks[..last] + [ks[last]];
      ParamsAfterAt(base, ks[..last], fsb, feb, x);
    }
  }

  lemma {:induction false} SetAtAt<V>(base: map<int, V>, ks: seq<int>, v: V, x: int)
    requires x in base
    ensures SetAt(base, ks, v)[x] == if x in ks then v else base[x]
    decreases |ks|
  {
    if ks != [] {
      var last := |ks| - 1;
      assert ks == ks[..last] + [ks[last]];
      SetAtAt(base, ks[..last], v, x);
    }
  }

  lemma {:induction false} OutputsAfterAt(base: map<int, seq<FakeNode>>, m: map<int, FakeNode>, inc: map<int, seq<int>>,
                                          ks: seq<int>, x: int)
    requires forall i :: 0 <= i < |ks| ==> ks[i] in m && ks[i] in inc
    requires FedByBuilt(m, inc) && m.Keys <= base.Keys && x in base
    ensures OutputsAfter(base, m, inc, ks)[x] == base[x] + FakesOf(m, Consumers(inc, ks, x))
    decreases |ks|
  {
    if ks != [] {
      var last := |ks| - 1;
      var k := ks[last];
      var before := OutputsAfter(base, m, inc, ks[..last]);
      var prev, rep := Consumers(inc, ks[..last], x), Repeat(k, Occ(inc[k], x));
      assert forall i :: 0 <= i < |inc[k]| ==> inc[k][i] in before by {
        assert FedByBuilt(m, inc);
      }
      calc {
        OutputsAfter(base, m, inc, ks)[x];
        Grow(before, m[k], inc[k])[x];
        { GrowAt(before, m[k], inc[k], x); }
        before[x] + Copies(m[k], Occ(inc[k], x));
        { OutputsAfterAt(base, m, inc, ks[..last], x); FakesOfRepeat(m, k, Occ(inc[k], x)); }
        base[x] + FakesOf(m, prev) + FakesOf(m, rep);
        { FakesOfAppend(m, prev, rep); }
        base[x] + FakesOf(m, prev + rep);
      }
    }
  }

  /** `add_input` from `nodeMap[k]` to `nodeMap[j]`. */
  method AddInputAt(nodeMap: map<int, FakeNode>, k: int, j: int)
    requires k in nodeMap && j in nodeMap && Injective(nodeMap)
    modifies nodeMap[k], nodeMap[j]
    ensures InputsOf(nodeMap) == old(InputsOf(nodeMap))[k := old(InputsOf(nodeMap))[k] + [nodeMap[j]]]
    ensures OutputsOf(nodeMap) == old(OutputsOf(nodeMap))[j := old(OutputsOf(nodeMap))[j] + [nodeMap[k]]]
    ensures ParamsOf(nodeMap) == old(ParamsOf(nodeMap)) && RangesOf(nodeMap) == old(RangesOf(nodeMap))
  {
    ghost var i0, o0 := InputsOf(nodeMap), OutputsOf(nodeMap);
    ghost var p0, r0 := ParamsOf(nodeMap), RangesOf(nodeMap);
    var fk, fj := nodeMap[k], nodeMap[j];
    assert forall x :: x in nodeMap && x != k && x != j ==> nodeMap[x] != fk && nodeMap[x] != fj;
    fk.AddInput(fj);
    assert InputsOf(nodeMap) == i0[k := i0[k] + [fj]];
    assert OutputsOf(nodeMap) == o0[j := o0[j] + [fk]];
    assert ParamsOf(nodeMap) == p0;
    assert RangesOf(nodeMap) == r0;
  }

  /** One block parameter put into group "_" of node `k`'s stand-in. */
  method PutParamAt(nodeMap: map<int, FakeNode>, k: int, name: string, p: Parameter)
    requires k in nodeMap && Injective(nodeMap)
    modifies nodeMap[k]
    ensures InputsOf(nodeMap) == old(InputsOf(nodeMap)) && OutputsOf(nodeMap) == old(OutputsOf(nodeMap))
    ensures ParamsOf(nodeMap) == old(ParamsOf(nodeMap))[k := WithParam(old(ParamsOf(nodeMap))[k], name, p)]
    ensures RangesOf(nodeMap) == old(RangesOf(nodeMap))
  {
    ghost var i0, o0 := InputsOf(nodeMap), OutputsOf(nodeMap);
    ghost var p0, r0 := ParamsOf(nodeMap), RangesOf(nodeMap);
    var f := nodeMap[k];
    f.PutParam("_", name, p);
    forall x | x in nodeMap
      ensures InputsOf(nodeMap)[x] == i0[x] && OutputsOf(nodeMap)[x] == o0[x]
      ensures ParamsOf(nodeMap)[x] == p0[k := WithParam(p0[k], name, p)][x] && RangesOf(nodeMap)[x] == r0[x]
    {
      if x != k {
        assert nodeMap[x] != f;
      }
    }
  }

  /** The range of node `k`'s stand-in set. */
  method SetRangeAt(nodeMap: map<int, FakeNode>, k: int, rng: FrameRange)
    requires k in nodeMap && Injective(nodeMap)
    modifies nodeMap[k]
    ensures InputsOf(nodeMap) == old(InputsOf(nodeMap)) && OutputsOf(nodeMap) == old(OutputsOf(nodeMap))
    ensures ParamsOf(nodeMap) == old(ParamsOf(nodeMap))
    ensures RangesOf(nodeMap) == old(RangesOf(nodeMap))[k := rng]
  {
    ghost var i0, o0 := InputsOf(nodeMap), OutputsOf(nodeMap);
    ghost var p0, r0 := ParamsOf(nodeMap), RangesOf(nodeMap);
    nodeMap[k].SetRange(rng);
    forall x | x in nodeMap
      ensures InputsOf(nodeMap)[x] == i0[x] && OutputsOf(nodeMap)[x] == o0[x]
      ensures ParamsOf(nodeMap)[x] == p0[x] && RangesOf(nodeMap)[x] == r0[k := rng][x]
    {
    }
  }

  /** `add_input` from node `k`'s stand-in to the stand-in of each entry of
      `ins` in turn. */
  method WireInputs(nodeMap: map<int, FakeNode>, k: int, ins: seq<int>)
    requires k in nodeMap && Injective(nodeMap)
    requires forall i :: 0 <= i < |ins| ==> ins[i] in nodeMap
    modifies nodeMap.Values
    ensures InputsOf(nodeMap) == old(InputsOf(nodeMap))[k := old(InputsOf(nodeMap))[k] + FakesOf(nodeMap, ins)]
    ensures OutputsOf(nodeMap) == Grow(old(OutputsOf(nodeMap)), nodeMap[k], ins)
    ensures ParamsOf(nodeMap) == old(ParamsOf(nodeMap)) && RangesOf(nodeMap) == old(RangesOf(nodeMap))
  {
    ghost var ins0, outs0 := InputsOf(nodeMap), OutputsOf(nodeMap);
    ghost var gi, go := ins0, outs0;
    WireInputsStep(ins0, outs0, nodeMap, k, ins, 0);
    var i := 0;
    while i < |ins|
      invariant 0 <= i <= |ins|
      invariant InputsOf(nodeMap) == gi && OutputsOf(nodeMap) == go
      invariant gi == ins0[k := ins0[k] + FakesOf(nodeMap, ins[..i])]
      invariant go == Grow(outs0, nodeMap[k], ins[..i])
      invariant ParamsOf(nodeMap) == old(ParamsOf(nodeMap)) && RangesOf(nodeMap) == old(RangesOf(nodeMap))
    {
      AddInputAt(nodeMap, k, ins[i]);
      WireInputsStep(ins0, outs0, nodeMap, k, ins, i + 1);
      gi, go := gi[k := gi[k] + [nodeMap[ins[i]]]], go[ins[i] := go[ins[i]] + [nodeMap[k]]];
      i := i + 1;
    }
    assert ins[..i] == ins;
  }

  /** One step of `WireInputs` on the snapshots. */
  lemma WireInputsStep(ins0: map<int, seq<FakeNode>>, outs0: map<int, seq<FakeNode>>, nodeMap: map<int, FakeNode>,
                       k: int, ins: seq<int>, i: nat)
    requires k in nodeMap && k in ins0 && i <= |ins|
    requires forall j :: 0 <= j < |ins| ==> ins[j] in nodeMap && ins[j] in outs0
    ensures i == 0 ==> ins0[k := ins0[k] + FakesOf(nodeMap, ins[..i])] == ins0 && Grow(outs0, nodeMap[k], ins[..i]) == outs0
    ensures i > 0 ==> ins0[k := ins0[k] + FakesOf(nodeMap, ins[..i])] ==
                      ins0[k := ins0[k] + FakesOf(nodeMap, ins[..i - 1])][k := ins0[k] + FakesOf(nodeMap, ins[..i - 1]) + [nodeMap[ins[i - 1]]]]
    ensures i > 0 ==> Grow(outs0, nodeMap[k], ins[..i]) ==
                      var r := Grow(outs0, nodeMap[k], ins[..i - 1]); r[ins[i - 1] := r[ins[i - 1]] + [nodeMap[k]]]
  {
    if i == 0 {
      assert ins[..i] == [];
      assert ins0[k] + [] == ins0[k];
    } else {
      assert ins[..i][..i - 1] == ins[..i - 1];
      var done := FakesOf(nodeMap, ins[..i - 1]);
      assert ins0[k] + done + [nodeMap[ins[i - 1]]] == ins0[k] + (done + [nodeMap[ins[i - 1]]]);
    }
  }

  /** The second pass of `build_nodes` over the built nodes in ascending id
      order: each is linked to its feeding nodes, given the block
      parameters and the range, and added to the builder. */
  method WireAll(keys: seq<int>, nodeMap: map<int, FakeNode>, inc: map<int, seq<int>>,
                 fsb: Parameter, feb: Parameter, rng: FrameRange, builder: GraphBuilder)
    requires forall i :: 0 <= i < |keys| ==> keys[i] in nodeMap && keys[i] in inc
    requires FedByBuilt(nodeMap, inc) && Injective(nodeMap)
    modifies nodeMap.Values, builder
    ensures builder.nodes == old(builder.nodes) + FakesOf(nodeMap, keys)
    ensures InputsOf(nodeMap) == InputsAfter(old(InputsOf(nodeMap)), nodeMap, inc, keys)
    ensures OutputsOf(nodeMap) == OutputsAfter(old(OutputsOf(nodeMap)), nodeMap, inc, keys)
    ensures ParamsOf(nodeMap) == ParamsAfter(old(ParamsOf(nodeMap)), keys, fsb, feb)
    ensures RangesOf(nodeMap) == SetAt(old(RangesOf(nodeMap)), keys, rng)
  {
    ghost var ins0, outs0, params0, ranges0 := InputsOf(nodeMap), OutputsOf(nodeMap), ParamsOf(nodeMap), RangesOf(nodeMap);
    ghost var b0 := builder.nodes;
    ghost var gb, gi, go, gp, gr := b0, ins0, outs0, params0, ranges0;
    var a := 0;
    while a < |keys|
      invariant 0 <= a <= |keys|
      invariant builder.nodes == gb && gb == b0 + FakesOf(nodeMap, keys[..a])
      invariant InputsOf(nodeMap) == gi && OutputsOf(nodeMap) == go
      invariant ParamsOf(nodeMap) == gp && RangesOf(nodeMap) == gr
      invariant gi == InputsAfter(ins0, nodeMap, inc, keys[..a])
      invariant go == OutputsAfter(outs0, nodeMap, inc, keys[..a])
      invariant gp == ParamsAfter(params0, keys[..a], fsb, feb)
      invariant gr == SetAt(ranges0, keys[..a], rng)
    {
      var k := keys[a];
      StepFakes(b0, nodeMap, keys, a);
      StepInputs(ins0, nodeMap, inc, keys, a);
      StepOutputs(outs0, nodeMap, inc, keys, a);
      StepParams(params0, keys, a, fsb, feb);
      StepRanges(ranges0, keys, a, rng);
      WireNode(nodeMap, k, inc[k], fsb, feb, rng, builder);
      gb, gi, go, gp, gr := gb + [nodeMap[k]], gi[k := gi[k] + FakesOf(nodeMap, inc[k])], Grow(go, nodeMap[k], inc[k]),
                            gp[k := WithBlocks(gp[k], fsb, feb)], gr[k := rng];
      a := a + 1;
    }
    assert keys[..a] == keys;
  }

  /** The body of the second pass of `build_nodes` for node `k`, short of
      handing its stand-in to the builder. */
  method WireOne(nodeMap: map<int, FakeNode>, k: int, ins: seq<int>, fsb: Parameter, feb: Parameter, rng: FrameRange,
                 ghost builder: GraphBuilder)
    requires k in nodeMap && Injective(nodeMap)
    requires forall i :: 0 <= i < |ins| ==> ins[i] in nodeMap
    modifies nodeMap.Values
    ensures builder.nodes == old(builder.nodes)
    ensures InputsOf(nodeMap) == old(InputsOf(nodeMap))[k := old(InputsOf(nodeMap))[k] + FakesOf(nodeMap, ins)]
    ensures OutputsOf(nodeMap) == Grow(old(OutputsOf(nodeMap)), nodeMap[k], ins)
    ensures ParamsOf(nodeMap) == old(ParamsOf(nodeMap))[k := WithBlocks(old(ParamsOf(nodeMap))[k], fsb, feb)]
    ensures RangesOf(nodeMap) == old(RangesOf(nodeMap))[k := rng]
  {
    WireInputs(nodeMap, k, ins);
    ghost var i1, o1, p1, r1 := InputsOf(nodeMap), OutputsOf(nodeMap), ParamsOf(nodeMap), RangesOf(nodeMap);
    PutParamAt(nodeMap, k, "frame_start_block", fsb);
    ghost var p2 := ParamsOf(nodeMap);
    assert p2 == p1[k := WithParam(p1[k], "frame_start_block", fsb)];
    PutParamAt(nodeMap, k, "frame_end_block", feb);
    assert ParamsOf(nodeMap) == p1[k := WithBlocks(p1[k], fsb, feb)] by {
      assert p2[k] == WithParam(p1[k], "frame_start_block", fsb);
    }
    assert InputsOf(nodeMap) == i1 && OutputsOf(nodeMap) == o1 && RangesOf(nodeMap) == r1;
    SetRangeAt(nodeMap, k, rng);
  }

  /** The body of the second pass of `build_nodes` for node `k`. */
  method WireNode(nodeMap: map<int, FakeNode>, k: int, ins: seq<int>, fsb: Parameter, feb: Parameter, rng: FrameRange,
                  builder: GraphBuilder)
    requires k in nodeMap && Injective(nodeMap)
    requires forall i :: 0 <= i < |ins| ==> ins[i] in nodeMap
    modifies nodeMap.Values, builder
    ensures builder.nodes == old(builder.nodes) + [nodeMap[k]]
    ensures InputsOf(nodeMap) == old(InputsOf(nodeMap))[k := old(InputsOf(nodeMap))[k] + FakesOf(nodeMap, ins)]
    ensures OutputsOf(nodeMap) == Grow(old(OutputsOf(nodeMap)), nodeMap[k], ins)
    ensures ParamsOf(nodeMap) == old(ParamsOf(nodeMap))[k := WithBlocks(old(ParamsOf(nodeMap))[k], fsb, feb)]
    ensures RangesOf(nodeMap) == old(RangesOf(nodeMap))[k := rng]
  {
    WireOne(nodeMap, k, ins, fsb, feb, rng, builder);
    AddToBuilder(nodeMap, k, builder);
  }

  /** Node `k`'s stand-in handed to the builder; the stand-ins are not
      touched. */
  method AddToBuilder(nodeMap: map<int, FakeNode>, k: int, builder: GraphBuilder)
    requires k in nodeMap
    modifies builder
    ensures builder.nodes == old(builder.nodes) + [nodeMap[k]]
    ensures InputsOf(nodeMap) == old(InputsOf(nodeMap)) && OutputsOf(nodeMap) == old(OutputsOf(nodeMap))
    ensures ParamsOf(nodeMap) == old(ParamsOf(nodeMap)) && RangesOf(nodeMap) == old(RangesOf(nodeMap))
  {
    builder.Add(nodeMap[k]);
  }

  // One step of `WireAll` on each of its snapshots.

  lemma StepFakes(b0: seq<FakeNode>, m: map<int, FakeNode>, keys: seq<int>, a: nat)
    requires a < |keys| && forall i :: 0 <= i < |keys| ==> keys[i] in m
    ensures b0 + FakesOf(m, keys[..a + 1]) == b0 + FakesOf(m, keys[..a]) + [m[keys[a]]]
  {
    assert keys[..a + 1][..a] == keys[..a];
    var done := FakesOf(m, keys[..a]);
    assert b0 + done + [m[keys[a]]] == b0 + (done + [m[keys[a]]]);
  }

  lemma StepInputs(base: map<int, seq<FakeNode>>, m: map<int, FakeNode>, inc: map<int, seq<int>>, keys: seq<int>, a: nat)
    requires a < |keys| && forall i :: 0 <= i < |keys| ==> keys[i] in base && keys[i] in inc
    requires FedByBuilt(m, inc)
    ensures keys[a] in inc && forall i :: 0 <= i < |inc[keys[a]]| ==> inc[keys[a]][i] in m
    ensures var r := InputsAfter(base, m, inc, keys[..a]);
            InputsAfter(base, m, inc, keys[..a + 1]) == r[keys[a] := r[keys[a]] + FakesOf(m, inc[keys[a]])]
  {
    assert keys[a] in inc;
    forall i | 0 <= i < |inc[keys[a]]|
      ensures inc[keys[a]][i] in m
    {
      assert FedByBuilt(m, inc);
    }
    assert keys[..a + 1][..a] == keys[..a];
  }

  lemma StepOutputs(base: map<int, seq<FakeNode>>, m: map<int, FakeNode>, inc: map<int, seq<int>>, keys: seq<int>, a: nat)
    requires a < |keys| && forall i :: 0 <= i < |keys| ==> keys[i] in m && keys[i] in inc
    requires FedByBuilt(m, inc) && m.Keys <= base.Keys
    ensures keys[a] in inc && forall i :: 0 <= i < |inc[keys[a]]| ==> inc[keys[a]][i] in base
    ensures OutputsAfter(base, m, inc, keys[..a + 1]) == Grow(OutputsAfter(base, m, inc, keys[..a]), m[keys[a]], inc[keys[a]])
  {
    assert keys[a] in inc;
    forall i | 0 <= i < |inc[keys[a]]|
      ensures inc[keys[a]][i] in base
    {
      assert FedByBuilt(m, inc);
    }
    assert keys[..a + 1][..a] == keys[..a];
  }

  lemma StepParams(base: map<int, map<string, map<string, Parameter>>>, keys: seq<int>, a: nat, fsb: Parameter, feb: Parameter)
    requires a < |keys| && forall i :: 0 <= i < |keys| ==> keys[i] in base
    ensures var r := ParamsAfter(base, keys[..a], fsb, feb);
            ParamsAfter(base, keys[..a + 1], fsb, feb) == r[keys[a] := WithBlocks(r[keys[a]], fsb, feb)]
  {
    assert keys[..a + 1][..a] == keys[..a];
  }

  lemma StepRanges<V>(base: map<int, V>, keys: seq<int>, a: nat, v: V)
    requires a < |keys|
    ensures SetAt(base, keys[..a + 1], v) == SetAt(base, keys[..a], v)[keys[a] := v]
  {
    assert keys[..a + 1][..a] == keys[..a];
  }

  /** After a complete walk every node feeding a built node is built. */
  lemma FedFromBuilt(g: Editor, reached: set<int>)
    requires reached <= g.nodes.Keys && Closed(g, reached) && SourcesFaked(g)
    ensures FakeMap(g, reached).Keys <= IncomingMap(g, reached).Keys
    ensures FedByBuilt(FakeMap(g, reached), IncomingMap(g, reached))
  {
    var m, inc := FakeMap(g, reached), IncomingMap(g, reached);
    forall k, i | k in inc && 0 <= i < |inc[k]|
      ensures inc[k][i] in m
    {
      var j := inc[k][i];
      assert j in Incoming(g, k);
      assert j in reached && j in g.nodes;
      assert g.nodes[j].fake.Some?;
    }
  }

  /** The state `build_nodes` leaves the built stand-ins in, `before` and
      `after` being the builder's lists: the builder gains them in ascending
      id order, each takes the stand-ins of its feeding nodes as inputs, one
      per link in ascending link order, and as outputs the stand-ins of the
      nodes it feeds, in ascending id order, once per link. */
  ghost predicate Built(g: Editor, reached: set<int>, before: seq<FakeNode>, after: seq<FakeNode>)
    reads AllFakes(g)
  {
    BuiltFrom(FakeMap(g, reached), IncomingMap(g, reached), before, after)
  }

  /** `Built` for the map of stand-ins `m` and the feeding lists `inc`. */
  predicate BuiltFrom(m: map<int, FakeNode>, inc: map<int, seq<int>>, before: seq<FakeNode>, after: seq<FakeNode>)
    reads m.Values
  {
    var keys := Sorted(m.Keys);
    m.Keys <= inc.Keys && FedByBuilt(m, inc) &&
    after == before + FakesOf(m, keys) &&
    (forall k :: k in m ==> m[k].inputs == FakesOf(m, inc[k])) &&
    (forall k :: k in m ==> m[k].outputs == FakesOf(m, Consumers(inc, keys, k)))
  }

  lemma SortedDistinct(s: set<int>)
    ensures Distinct(Sorted(s))
  {
  }

  /** The ids of `m`, each once. */
  predicate Enumerates(m: map<int, FakeNode>, keys: seq<int>)
  {
    Distinct(keys) && (forall i :: 0 <= i < |keys| ==> keys[i] in m) && forall x :: x in m ==> x in keys
  }

  /** From flushed stand-ins, the first pass gives each built node the
      stand-ins of its feeding nodes ... */
  lemma WiredInputs(m: map<int, FakeNode>, inc: map<int, seq<int>>, keys: seq<int>, ins0: map<int, seq<FakeNode>>)
    requires Enumerates(m, keys)
    requires ins0.Keys == m.Keys && forall x :: x in ins0 ==> ins0[x] == []
    requires m.Keys <= inc.Keys && FedByBuilt(m, inc)
    ensures forall k :: k in m ==> InputsAfter(ins0, m, inc, keys)[k] == FakesOf(m, inc[k])
  {
    forall k | k in m
      ensures InputsAfter(ins0, m, inc, keys)[k] == FakesOf(m, inc[k])
    {
      InputsAfterAt(ins0, m, inc, keys, k);
      assert [] + FakesOf(m, inc[k]) == FakesOf(m, inc[k]);
    }
  }

  /** ... and each the stand-ins of the nodes it feeds. */
  lemma WiredOutputs(m: map<int, FakeNode>, inc: map<int, seq<int>>, keys: seq<int>, outs0: map<int, seq<FakeNode>>)
    requires forall i :: 0 <= i < |keys| ==> keys[i] in m
    requires outs0.Keys == m.Keys && forall x :: x in outs0 ==> outs0[x] == []
    requires m.Keys <= inc.Keys && FedByBuilt(m, inc)
    ensures forall k :: k in m ==> OutputsAfter(outs0, m, inc, keys)[k] == FakesOf(m, Consumers(inc, keys, k))
  {
    forall k | k in m
      ensures OutputsAfter(outs0, m, inc, keys)[k] == FakesOf(m, Consumers(inc, keys, k))
    {
      OutputsAfterAt(outs0, m, inc, keys, k);
      assert [] + FakesOf(m, Consumers(inc, keys, k)) == FakesOf(m, Consumers(inc, keys, k));
    }
  }

  /** Two passes from flushed stand-ins leave them as `Built` says. */
  lemma WiredBuilt(m: map<int, FakeNode>, inc: map<int, seq<int>>, before: seq<FakeNode>, after: seq<FakeNode>,
                   ins0: map<int, seq<FakeNode>>, outs0: map<int, seq<FakeNode>>)
    requires ins0.Keys == m.Keys && forall x :: x in ins0 ==> ins0[x] == []
    requires outs0.Keys == m.Keys && forall x :: x in outs0 ==> outs0[x] == []
    requires FedByBuilt(m, inc) && m.Keys <= inc.Keys
    requires after == before + FakesOf(m, Sorted(m.Keys))
    requires InputsOf(m) == InputsAfter(ins0, m, inc, Sorted(m.Keys))
    requires OutputsOf(m) == OutputsAfter(outs0, m, inc, Sorted(m.Keys))
    ensures BuiltFrom(m, inc, before, after)
  {
    var keys := Sorted(m.Keys);
    assert Enumerates(m, keys) by {
      SortedDistinct(m.Keys);
    }
    WiredInputs(m, inc, keys, ins0);
    WiredOutputs(m, inc, keys, outs0);
    forall k | k in m
      ensures m[k].inputs == FakesOf(m, inc[k])
      ensures m[k].outputs == FakesOf(m, Consumers(inc, keys, k))
    {
      assert m[k].inputs == InputsOf(m)[k] && m[k].outputs == OutputsOf(m)[k];
    }
  }

  /** The second pass sets the block parameters and the range of every
      built node. */
  lemma WiredParams(m: map<int, FakeNode>, p0: map<int, map<string, map<string, Parameter>>>, fsb: Parameter, feb: Parameter)
    requires p0.Keys == m.Keys
    ensures forall k :: k in m ==> ParamsAfter(p0, Sorted(m.Keys), fsb, feb)[k] == WithBlocks(p0[k], fsb, feb)
  {
    var keys := Sorted(m.Keys);
    SortedDistinct(m.Keys);
    forall k | k in m
      ensures ParamsAfter(p0, keys, fsb, feb)[k] == WithBlocks(p0[k], fsb, feb)
    {
      ParamsAfterAt(p0, keys, fsb, feb, k);
    }
  }

  lemma WiredRanges(m: map<int, FakeNode>, r0: map<int, FrameRange>, rng: FrameRange)
    requires r0.Keys == m.Keys && RangesOf(m) == SetAt(r0, Sorted(m.Keys), rng)
    ensures forall k :: k in m ==> m[k].range == rng
  {
    var keys := Sorted(m.Keys);
    forall k | k in m
      ensures m[k].range == rng
    {
      SetAtAt(r0, keys, rng, k);
      assert m[k].range == RangesOf(m)[k];
    }
  }


  /** The feeding nodes of node `k`, collected as `build_nodes` walks the
      links `k` records. */
  method Expand(w: NodeWindow, k: int) returns (incoming: seq<int>)
    requires k in w.nodes
    ensures incoming == Incoming(w.State(), k)
  {
    ghost var g := w.State();
    var n := w.nodes[k];
    var ls := Sorted(n.linkToPin.Keys);
    incoming := [];
    var i := 0;
    while i < |ls|
      invariant 0 <= i <= |ls| && incoming == IncomingOf(g, n, ls[..i])
    {
      var l := ls[i];
      assert ls[..i + 1][..i] == ls[..i];
      if l in w.links && w.links[l].end in n.inputs && w.links[l].start in w.pinToNode {
        incoming := incoming + [w.pinToNode[w.links[l].start]];
      }
      i := i + 1;
    }
    assert ls[..i] == ls;
  }

  /** Every node in `s` is forced. */
  ghost predicate AllForced(g: Editor, s: set<int>)
  {
    forall x :: x in s ==> Forced(g, x)
  }

  ghost predicate QueueForced(g: Editor, q: seq<int>)
  {
    forall i :: 0 <= i < |q| ==> Forced(g, q[i])
  }

  /** Every existing node waiting in the queue has a stand-in. */
  predicate QueueFaked(g: Editor, q: seq<int>)
  {
    forall i :: 0 <= i < |q| && q[i] in g.nodes ==> g.nodes[q[i]].fake.Some?
  }

  /** Every node feeding a visited node is visited or waiting. */
  predicate Pending(g: Editor, reached: set<int>, q: seq<int>)
  {
    forall k, j :: k in reached && k in g.nodes && j in Incoming(g, k) ==> j in reached || j in q
  }

  /** A node feeding a forced node is forced. */
  lemma ForcedStep(g: Editor, k: int, j: int)
    requires Forced(g, k) && k in g.nodes && j in Incoming(g, k)
    ensures Forced(g, j)
  {
    forall s | Closed(g, s) && g.displayNode in s
      ensures j in s
    {
      assert k in s;
    }
  }

  lemma DisplayForced(g: Editor)
    ensures Forced(g, g.displayNode)
  {
  }

  /** What a visit of a new node `ini` does to the walk's maps. */
  lemma VisitMaps(g: Editor, reached: set<int>, ini: int)
    requires ini in g.nodes
    ensures FakeMap(g, reached + {ini}) ==
              if g.nodes[ini].fake.Some? then FakeMap(g, reached)[ini := g.nodes[ini].fake.value] else FakeMap(g, reached)
    ensures IncomingMap(g, reached + {ini}) == IncomingMap(g, reached)[ini := Incoming(g, ini)]
  {
  }

  /** A visit of `ini`, taken from the front of the queue, keeps every
      feeding node visited or waiting, and forced. */
  lemma VisitKeeps(g: Editor, reached: set<int>, q: seq<int>, incoming: seq<int>)
    requires |q| > 0 && q[0] in g.nodes && incoming == Incoming(g, q[0])
    requires Pending(g, reached, q) && QueueForced(g, q)
    ensures Pending(g, reached + {q[0]}, q[1..] + incoming)
    ensures QueueForced(g, q[1..] + incoming)
  {
    var ini := q[0];
    forall i | 0 <= i < |q[1..] + incoming|
      ensures Forced(g, (q[1..] + incoming)[i])
    {
      if i >= |q| - 1 {
        assert Forced(g, ini);
        ForcedStep(g, ini, incoming[i - (|q| - 1)]);
      } else {
        assert (q[1..] + incoming)[i] == q[i + 1];
      }
    }
    forall k, j | k in reached + {ini} && k in g.nodes && j in Incoming(g, k)
      ensures j in reached + {ini} || j in q[1..] + incoming
    {
      if k != ini && j !in reached && j != ini {
        assert j in q;
        var i :| 0 <= i < |q| && q[i] == j;
        assert q[1..][i - 1] == j;
      }
    }
  }

  /** Skipping a node already visited keeps every feeding node visited or
      waiting. */
  lemma SkipKeeps(g: Editor, reached: set<int>, q: seq<int>)
    requires |q| > 0 && q[0] in reached
    requires Pending(g, reached, q) && QueueForced(g, q)
    ensures Pending(g, reached, q[1..]) && QueueForced(g, q[1..])
  {
    SkipPending(g, reached, q);
    forall i | 0 <= i < |q[1..]|
      ensures Forced(g, q[1..][i])
    {
      assert q[1..][i] == q[i + 1];
    }
  }

  lemma SkipPending(g: Editor, reached: set<int>, q: seq<int>)
    requires |q| > 0 && q[0] in reached && Pending(g, reached, q)
    ensures Pending(g, reached, q[1..])
  {
    forall k, j | k in reached && k in g.nodes && j in Incoming(g, k)
      ensures j in reached || j in q[1..]
    {
      if j !in reached {
        assert j in q;
        var i :| 0 <= i < |q| && q[i] == j;
        assert q[1..][i - 1] == j;
      }
    }
  }

  /** The feeding nodes of `ini` waiting after its visit have stand-ins. */
  lemma VisitFaked(g: Editor, q: seq<int>, incoming: seq<int>)
    requires |q| > 0 && q[0] in g.nodes && incoming == Incoming(g, q[0])
    requires SourcesFaked(g) && QueueFaked(g, q)
    ensures QueueFaked(g, q[1..] + incoming)
  {
    forall i | 0 <= i < |q[1..] + incoming| && (q[1..] + incoming)[i] in g.nodes
      ensures g.nodes[(q[1..] + incoming)[i]].fake.Some?
    {
      if i < |q| - 1 {
        assert (q[1..] + incoming)[i] == q[i + 1];
      } else {
        var j := incoming[i - (|q| - 1)];
        assert (q[1..] + incoming)[i] == j;
        assert j in Incoming(g, q[0]);
      }
    }
  }

  /** What holds between two steps of the walk: the maps describe the
      visited nodes, every feeding node of a visited node is visited or
      waiting, and all of them are forced. Before the first step only the
      display node waits. */
  ghost predicate WalkInv(g: Editor, first: bool, reached: set<int>, queue: seq<int>,
                          nodeMap: map<int, FakeNode>, inputMap: map<int, seq<int>>)
  {
    (first ==> queue == [g.displayNode] && reached == {}) &&
    reached <= g.nodes.Keys &&
    nodeMap == FakeMap(g, reached) && inputMap == IncomingMap(g, reached) &&
    (!first ==> QueueFaked(g, queue) && g.displayNode in reached) &&
    Pending(g, reached, queue) && AllForced(g, reached) && QueueForced(g, queue)
  }

  lemma KeysCard(a: set<int>, b: set<int>)
    requires a <= b
    ensures |a| <= |b|
  {
    assert b == a + (b - a);
  }

  lemma WalkStart(g: Editor)
    ensures WalkInv(g, true, {}, [g.displayNode], map[], map[])
  {
    DisplayForced(g);
  }

  /** Visiting the node at the front of the queue, which has no stand-in
      entry yet, keeps the invariant and visits one more node. */
  lemma WalkVisit(g: Editor, first: bool, reached: set<int>, queue: seq<int>,
                  nodeMap: map<int, FakeNode>, inputMap: map<int, seq<int>>, incoming: seq<int>,
                  nodeMap': map<int, FakeNode>, inputMap': map<int, seq<int>>)
    requires WalkInv(g, first, reached, queue, nodeMap, inputMap) && SourcesFaked(g)
    requires |queue| > 0 && queue[0] in g.nodes && queue[0] !in nodeMap && incoming == Incoming(g, queue[0])
    requires nodeMap' == if g.nodes[queue[0]].fake.Some? then nodeMap[queue[0] := g.nodes[queue[0]].fake.value] else nodeMap
    requires inputMap' == inputMap[queue[0] := incoming]
    ensures WalkInv(g, false, reached + {queue[0]}, queue[1..] + incoming, nodeMap', inputMap')
    ensures |reached + {queue[0]}| == |reached| + 1 <= |g.nodes.Keys|
  {
    var ini := queue[0];
    var r2, q2 := reached + {ini}, queue[1..] + incoming;
    assert ini !in reached by {
      if !first {
        assert QueueFaked(g, queue);
      }
    }
    assert r2 <= g.nodes.Keys && nodeMap' == FakeMap(g, r2) && inputMap' == IncomingMap(g, r2) by {
      VisitMaps(g, reached, ini);
    }
    assert Pending(g, r2, q2) && QueueForced(g, q2) by {
      VisitKeeps(g, reached, queue, incoming);
    }
    assert AllForced(g, r2) by {
      assert QueueForced(g, queue) && AllForced(g, reached);
      assert Forced(g, queue[0]);
    }
    assert QueueFaked(g, q2) && g.displayNode in r2 by {
      if !first {
        VisitFaked(g, queue, incoming);
      } else {
        assert queue[1..] == [];
      }
    }
    assert |r2| == |reached| + 1 <= |g.nodes.Keys| by {
      KeysCard(r2, g.nodes.Keys);
    }
  }

  /** Skipping a node with a stand-in entry keeps the invariant. */
  lemma WalkSkip(g: Editor, first: bool, reached: set<int>, queue: seq<int>,
                 nodeMap: map<int, FakeNode>, inputMap: map<int, seq<int>>)
    requires WalkInv(g, first, reached, queue, nodeMap, inputMap)
    requires |queue| > 0 && queue[0] in nodeMap
    ensures !first && WalkInv(g, first, reached, queue[1..], nodeMap, inputMap)
  {
    SkipKeeps(g, reached, queue);
  }

  /** An empty queue leaves a closed visited set holding the display node. */
  lemma WalkEnd(g: Editor, first: bool, reached: set<int>, nodeMap: map<int, FakeNode>, inputMap: map<int, seq<int>>)
    requires WalkInv(g, first, reached, [], nodeMap, inputMap)
    ensures g.displayNode in reached && Closed(g, reached)
  {
    forall k, j | k in reached && k in g.nodes && j in Incoming(g, k)
      ensures j in reached
    {
      assert Pending(g, reached, []);
    }
  }

  /** The walk fails at a forced id that has no node. */
  lemma WalkFail(g: Editor, first: bool, reached: set<int>, queue: seq<int>,
                 nodeMap: map<int, FakeNode>, inputMap: map<int, seq<int>>)
    requires WalkInv(g, first, reached, queue, nodeMap, inputMap)
    requires |queue| > 0 && queue[0] !in g.nodes
    ensures exists x :: x !in g.nodes && Forced(g, x)
    ensures !(PinsOwned(g) && g.displayNode in g.nodes)
  {
    assert QueueForced(g, queue);
    assert Forced(g, queue[0]);
    MissingForced(g, queue[0]);
  }

  /** A forced id with no node shows that some pin's owner is missing or
      the display node is gone. */
  lemma MissingForced(g: Editor, x: int)
    requires Forced(g, x) && x !in g.nodes
    ensures !(PinsOwned(g) && g.displayNode in g.nodes)
  {
    if PinsOwned(g) && g.displayNode in g.nodes {
      NodesClosed(g);
    }
  }

  /** The breadth-first walk of `build_nodes` from the display node along
      the links into each node's inputs. It fails when it reaches an id
      with no node (`_nodes.at` throws). A node is expanded only when it has
      no entry in the map of built nodes, so each node with a stand-in is
      expanded once and the walk ends on cycles. It visits a closed set of
      nodes holding the display node, each of them in every such set,
      recording the stand-in and the feeding nodes of each. */
  method Explore(w: NodeWindow) returns (ok: bool, nodeMap: map<int, FakeNode>, inputMap: map<int, seq<int>>,
                                         ghost reached: set<int>)
    requires SourcesFaked(w.State())
    ensures AllForced(w.State(), reached)
    ensures reached <= w.nodes.Keys
    ensures ok ==> w.displayNode in reached && Closed(w.State(), reached)
    ensures !ok ==> exists x :: x !in w.nodes && Forced(w.State(), x)
    ensures !ok ==> !(PinsOwned(w.State()) && w.displayNode in w.nodes)
    ensures nodeMap == FakeMap(w.State(), reached)
    ensures inputMap == IncomingMap(w.State(), reached)
  {
    ghost var g := w.State();
    var queue := [w.displayNode];
    nodeMap, inputMap, reached := map[], map[], {};
    ghost var first := true;
    ok := true;
    WalkStart(g);
    while |queue| > 0
      invariant WalkInv(g, first, reached, queue, nodeMap, inputMap)
      invariant |reached| <= |g.nodes.Keys|
      decreases if first then 1 else 0, |g.nodes.Keys| - |reached|, |queue|
    {
      var ini := queue[0];
      if ini !in w.nodes {
        ok := false;
        WalkFail(g, first, reached, queue, nodeMap, inputMap);
        return;
      }
      if ini !in nodeMap {
        ghost var q0, r0, n0, i0 := queue, reached, nodeMap, inputMap;
        var n := w.nodes[ini];
        if n.fake.Some? {
          nodeMap := nodeMap[ini := n.fake.value];
        }
        var incoming := Expand(w, ini);
        inputMap := inputMap[ini := incoming];
        queue := queue[1..] + incoming;
        reached := reached + {ini};
        WalkVisit(g, first, r0, q0, n0, i0, incoming, nodeMap, inputMap);
        first := false;
      } else {
        WalkSkip(g, first, reached, queue, nodeMap, inputMap);
        queue := queue[1..];
      }
    }
    WalkEnd(g, first, reached, nodeMap, inputMap);
  }

  /** No two built nodes share a stand-in, and the stand-ins are the
      window's. */
  lemma FakeMapShape(g: Editor, s: set<int>)
    requires FakesDistinct(g)
    ensures Injective(FakeMap(g, s)) && FakeMap(g, s).Values <= AllFakes(g)
  {
    var m := FakeMap(g, s);
    forall k | k in m
      ensures m[k] in AllFakes(g)
    {
      assert k in g.nodes && g.nodes[k].fake.Some?;
    }
  }

  /** The part of `build_nodes` after the walk: the block parameters are
      made, the built stand-ins flushed and then wired in ascending id
      order. */
  method WireBuilt(nodeMap: map<int, FakeNode>, inputMap: map<int, seq<int>>, builder: GraphBuilder,
                   cache: ParameterCache, st: Storage, hash: string, block: FrameInterval)
    returns (fsb: Parameter, feb: Parameter)
    requires FedByBuilt(nodeMap, inputMap) && nodeMap.Keys <= inputMap.Keys && Injective(nodeMap)
    requires StorageFits(PFrame, st)
    requires FrameCached(cache, Key(PFrame, hash, "frame_start_block"))
    requires FrameCached(cache, Key(PFrame, hash, "frame_end_block"))
    modifies builder, cache, nodeMap.Values
    modifies Cached(cache, Key(PFrame, hash, "frame_start_block")), Cached(cache, Key(PFrame, hash, "frame_end_block"))
    ensures BuiltFrom(nodeMap, inputMap, old(builder.nodes), builder.nodes)
    ensures forall k :: k in nodeMap ==> nodeMap[k].range == FrameRange({FrameInterval(block.start, block.end)})
    ensures forall k :: k in nodeMap ==> ParamsOf(nodeMap)[k] == WithBlocks(old(ParamsOf(nodeMap))[k], fsb, feb)
    ensures Key(PFrame, hash, "frame_start_block") in cache.params && cache.params[Key(PFrame, hash, "frame_start_block")] == fsb
    ensures Key(PFrame, hash, "frame_end_block") in cache.params && cache.params[Key(PFrame, hash, "frame_end_block")] == feb
    ensures forall k :: k in old(cache.params) ==> k in cache.params && cache.params[k] == old(cache.params[k])
    ensures feb.value == FrameAt(block.end.index) && (fsb != feb ==> fsb.value == FrameAt(block.start.index))
  {
    ghost var p0 := ParamsOf(nodeMap);
    fsb, feb := BlockParams(cache, st, hash, block);
    assert ParamsOf(nodeMap) == p0;
    FlushAndWire(nodeMap, inputMap, builder, fsb, feb, FrameRange({FrameInterval(block.start, block.end)}));
  }

  /** The built stand-ins flushed, then wired in ascending id order. */
  method FlushAndWire(nodeMap: map<int, FakeNode>, inputMap: map<int, seq<int>>, builder: GraphBuilder,
                      fsb: Parameter, feb: Parameter, rng: FrameRange)
    requires FedByBuilt(nodeMap, inputMap) && nodeMap.Keys <= inputMap.Keys && Injective(nodeMap)
    modifies builder, nodeMap.Values
    ensures BuiltFrom(nodeMap, inputMap, old(builder.nodes), builder.nodes)
    ensures forall k :: k in nodeMap ==> nodeMap[k].range == rng
    ensures forall k :: k in nodeMap ==> ParamsOf(nodeMap)[k] == WithBlocks(old(ParamsOf(nodeMap))[k], fsb, feb)
  {
    ghost var p0, r0, b0 := ParamsOf(nodeMap), RangesOf(nodeMap), builder.nodes;
    var keys := Sorted(nodeMap.Keys);
    FlushAll(keys, nodeMap);
    ghost var ins0, outs0 := InputsOf(nodeMap), OutputsOf(nodeMap);
    assert builder.nodes == b0;
    WireAll(keys, nodeMap, inputMap, fsb, feb, rng, builder);
    WiredBuilt(nodeMap, inputMap, b0, builder.nodes, ins0, outs0);
    WiredParams(nodeMap, p0, fsb, feb);
    WiredRanges(nodeMap, r0, rng);
  }

  /** `build_nodes(graph_builder)` on window `w` in editor state `g`, the
      block parameters keyed by `hash`: the nodes the walk from the display
      node reaches are each in every closed set holding the display node
      and, when the walk succeeds, form one; those with a stand-in are
      flushed, then, in ascending id order, linked to the stand-ins of their
      feeding nodes, given the two shared block parameters and the first
      block as range, and added to the builder. A failed walk changes
      nothing, and with every pin's owner present it cannot fail. */
  method BuildNodes(w: NodeWindow, builder: GraphBuilder, cache: ParameterCache, st: Storage,
                    ghost g: Editor, ghost hash: string, ghost block: FrameInterval)
    returns (ok: bool, ghost reached: set<int>, ghost built: map<int, FakeNode>, ghost fsb: Parameter?, ghost feb: Parameter?)
    requires g == w.State() && hash == w.windowName + IntToString(w.id)
    requires |w.blocks| > 0 && block == w.blocks[0] && StorageFits(PFrame, st)
    requires SourcesFaked(g) && FakesDistinct(g)
    requires FrameCached(cache, Key(PFrame, hash, "frame_start_block"))
    requires FrameCached(cache, Key(PFrame, hash, "frame_end_block"))
    modifies builder, cache, AllFakes(g)
    modifies Cached(cache, Key(PFrame, hash, "frame_start_block")), Cached(cache, Key(PFrame, hash, "frame_end_block"))
    ensures AllForced(g, reached) && reached <= g.nodes.Keys && built == FakeMap(g, reached)
    ensures ok ==> g.displayNode in reached && Closed(g, reached)
    ensures PinsOwned(g) && g.displayNode in g.nodes ==> ok
    ensures !ok ==> builder.nodes == old(builder.nodes) && cache.params == old(cache.params)
    ensures !ok ==> forall f :: f in AllFakes(g) ==> unchanged(f)
    ensures ok ==> BuiltFrom(built, IncomingMap(g, reached), old(builder.nodes), builder.nodes)
    ensures ok ==> forall k :: k in built ==> built[k].range == FrameRange({FrameInterval(block.start, block.end)})
    ensures ok ==> fsb != null && feb != null
    ensures ok ==> forall k :: k in built ==> ParamsOf(built)[k] == WithBlocks(old(ParamsOf(built))[k], fsb, feb)
    ensures ok ==> Key(PFrame, hash, "frame_start_block") in cache.params && cache.params[Key(PFrame, hash, "frame_start_block")] == fsb
    ensures ok ==> Key(PFrame, hash, "frame_end_block") in cache.params && cache.params[Key(PFrame, hash, "frame_end_block")] == feb
    ensures ok ==> feb.value == FrameAt(block.end.index) && (fsb != feb ==> fsb.value == FrameAt(block.start.index))
  {
    fsb, feb := null, null;
    var nodeMap, inputMap;
    ok, nodeMap, inputMap, reached := Explore(w);
    built := nodeMap;
    if !ok {
      return;
    }
    FedFromBuilt(g, reached);
    FakeMapShape(g, reached);
    var fs, fe := WireBuilt(nodeMap, inputMap, builder, cache, st, w.windowName + IntToString(w.id), w.blocks[0]);
    fsb, feb := fs, fe;
  }
}
