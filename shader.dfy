// Shaders (src/shader.cpp): the stage list of a graphics shader, and what a
// compute shader learns from its SPIR-V reflection data: the descriptor set
// layout with per-binding descriptor counts and binding names, the
// push-constant ranges, and the parameter type of each push-constant
// member. The reflection data (the SPIRV-Reflect library's output) is an
// input of the model.
module Shaders {
  import opened Wrappers
  import opened Parameters
  import opened DescriptorLayouts
  import opened DispatchPlan

  // ---- Shader::add ----------------------------------------------------------

  /** One `VkPipelineShaderStageCreateInfo`: the stage bit, the module
      handle the loader returned and the entry point name. */
  datatype Stage = Stage(stage: bv32, module_: int, entry: string)

  class Shader {
    var stages: seq<Stage>

    constructor ()
      ensures stages == []
    {
      stages := [];
    }

    /** `add(stage, path, main_name)`: one more stage per call; `module_`
        is the handle loading the SPIR-V at `path` gives. */
    method Add(stage: bv32, module_: int, mainName: string)
      modifies this
      ensures stages == old(stages) + [Stage(stage, module_, mainName)]
    {
      stages := stages + [Stage(stage, module_, mainName)];
    }
  }

  // ---- push-constant member types ---------------------------------------------

  /** SPIRV-Reflect's type flag bits. */
  const FlagBool: bv32 := 0x2
  const FlagInt: bv32 := 0x4
  const FlagFloat: bv32 := 0x8
  const FlagVector: bv32 := 0x100

  /** The parameter type of a push-constant member. A vector that is
      neither float nor int leaves the type unassigned (`None`); a scalar
      whose flags are not exactly float, int or bool is rejected. */
  function MemberType(flags: bv32, components: nat, signedness: nat): Result<Option<ParameterType>>
  {
    if flags & FlagVector != 0 then
      if flags & FlagFloat != 0 then Ok(Some(if components == 2 then PVec2 else PVec4))
      else if flags & FlagInt != 0 then
        if signedness == 0 then Ok(Some(if components == 2 then PUvec2 else PUvec4))
        else Ok(Some(if components == 2 then PIvec2 else PIvec4))
      else Ok(None)
    else if flags == FlagFloat then Ok(Some(PFloat))
    else if flags == FlagInt then Ok(Some(if signedness == 0 then PUint else PInt))
    else if flags == FlagBool then Ok(Some(PBool))
    else Err("Unexpected push constant layout.")
  }

  /** The mapping's decisions: vectors get two components exactly when
      reflected with two and four otherwise, signedness picks between the
      signed and unsigned integer types, only vectors can be left untyped,
      and only non-vector flags other than exactly float, int or bool are
      rejected. */
  lemma MemberTypeSpec(flags: bv32, components: nat, signedness: nat)
    ensures var r := MemberType(flags, components, signedness);
            (r.Err? <==> flags & FlagVector == 0 && flags != FlagFloat && flags != FlagInt && flags != FlagBool)
    ensures var r := MemberType(flags, components, signedness);
            (r == Ok(None) <==> flags & FlagVector != 0 && flags & FlagFloat == 0 && flags & FlagInt == 0)
    ensures var r := MemberType(flags, components, signedness);
            r.Ok? && r.value.Some? ==>
              IsNumeric(r.value.value) || r.value.value == PBool
    ensures var r := MemberType(flags, components, signedness);
            r.Ok? && r.value.Some? && flags & FlagVector != 0 ==>
              Arity(r.value.value) == (if components == 2 then 2 else 4)
    ensures var r := MemberType(flags, components, signedness);
            r.Ok? && r.value.Some? && flags & FlagVector == 0 && flags != FlagBool ==> Arity(r.value.value) == 1
    ensures var r := MemberType(flags, components, signedness);
            r.Ok? && r.value.Some? && (flags & FlagInt != 0 || flags == FlagInt) && flags & FlagFloat == 0 ==>
              (signedness == 0 <==> r.value.value in {PUint, PUvec2, PUvec4})
  {
  }

  // ---- reflection input --------------------------------------------------------

  datatype ReflBinding = ReflBinding(name: string, binding: nat, dtype: DescriptorType, dims: seq<nat>)
  datatype ReflSet = ReflSet(setNumber: nat, bindings: seq<ReflBinding>)
  datatype ReflMember = ReflMember(name: string, offset: nat, flags: bv32, components: nat, signedness: nat)
  /** A push-constant block; `members` is `None` when the block has no type
      description. */
  datatype ReflBlock = ReflBlock(size: nat, offset: nat, members: Option<seq<ReflMember>>)
  /** What the reflection library reports about a module: its descriptor
      sets, the local size of the named entry point (`None` when there is
      no such entry point), the entry point's push-constant blocks and the
      shader stage. */
  datatype Reflection = Reflection(sets: seq<ReflSet>, entryLocal: Option<Vec3>, blocks: seq<ReflBlock>, stage: bv32)

  /** `SetLayoutData`: the set number, its bindings and the name → position
      index. */
  datatype SetLayout = SetLayout(setNumber: nat, bindings: seq<LayoutBinding>, names: map<string, nat>)
  /** `VkPushConstantRange`. */
  datatype PushRange = PushRange(stage: bv32, size: nat, offset: nat)
  /** `ParameterPair`: the member's name, offset and parameter type (`None`
      where `_reflect` leaves it unassigned). */
  datatype TypePair = TypePair(ptype: Option<ParameterType>, name: string, offset: nat)

  // ---- descriptor counts ------------------------------------------------------

  const U32 := 0x1_0000_0000
  const U16 := 0x1_0000

  /** The product of the array dimensions, 1 for a scalar. */
  function Product(dims: seq<nat>): nat
  {
    if dims == [] then 1 else Product(dims[..|dims| - 1]) * dims[|dims| - 1]
  }

  /** `descriptorCount *= dims[i]` from 1 in `uint32_t`. */
  function Count32(dims: seq<nat>): nat
  {
    if dims == [] then 1 else (Count32(dims[..|dims| - 1]) * dims[|dims| - 1]) % U32
  }

  lemma MulMod(a: int, b: int, m: int)
    requires m > 0
    ensures ((a % m) * b) % m == (a * b) % m
  {
    var q, r := a / m, a % m;
    assert a * b == (q * b) * m + r * b;
    ModAddMultiple(r * b, q * b, m);
  }

  lemma ModAddMultiple(x: int, k: int, m: int)
    requires m > 0
    ensures (x + k * m) % m == x % m
  {
    ModUnique(x + k * m, m, x / m + k, x % m);
  }

  /** Euclidean division has one quotient and remainder. */
  lemma ModUnique(a: int, m: int, q: int, r: int)
    requires m > 0 && 0 <= r < m && a == q * m + r
    ensures a % m == r
  {
    var q0, r0 := a / m, a % m;
    var d := q0 - q;
    assert d * m == r - r0;
    if d >= 1 {
      MulAtLeast(d, m);
    } else if d <= -1 {
      MulAtLeast(-d, m);
    }
  }

  lemma MulAtLeast(d: int, m: int)
    requires d >= 1 && m > 0
    ensures d * m >= m
  {
  }

  lemma AddMod(a: int, b: int, m: int)
    requires m > 0
    ensures (a % m + b) % m == (a + b) % m
  {
    ModAddMultiple(a % m + b, a / m, m);
  }

  /** The 32-bit count is the true product reduced modulo 2^32, so it is
      the product whenever that fits. */
  lemma {:induction false} Count32Product(dims: seq<nat>)
    ensures Count32(dims) == Product(dims) % U32
    ensures Product(dims) < U32 ==> Count32(dims) == Product(dims)
  {
    if dims != [] {
      var init := dims[..|dims| - 1];
      Count32Product(init);
      MulMod(Product(init), dims[|dims| - 1], U32);
    }
  }

  /** The loop computing one binding's `descriptorCount`. */
  method DescriptorCount(dims: seq<nat>) returns (count: nat)
    ensures count == Count32(dims)
  {
    count := 1;
    var i := 0;
    while i < |dims|
      invariant 0 <= i <= |dims| && count == Count32(dims[..i])
    {
      assert dims[..i + 1][..i] == dims[..i];
      count := (count * dims[i]) % U32;
      i := i + 1;
    }
    assert dims[..|dims|] == dims;
  }

  /** The layout binding `_reflect` builds from a reflected one. */
  function LayoutBindingOf(b: ReflBinding, stage: bv32): LayoutBinding
  {
    LayoutBinding(b.binding, b.dtype, Count32(b.dims), stage)
  }

  /** `binding_names`: each name maps to the position of its last binding. */
  function NamesOf(bs: seq<ReflBinding>): (r: map<string, nat>)
    ensures r.Keys == set b | b in bs :: b.name
  {
    if bs == [] then map[]
    else
      var init := bs[..|bs| - 1];
      assert forall b :: b in bs <==> b in init || b == bs[|bs| - 1];
      NamesOf(init)[bs[|bs| - 1].name := |bs| - 1]
  }

  /** Every name maps to a position holding that name, and no later
      position holds it. */
  lemma {:induction false} NamesOfPositions(bs: seq<ReflBinding>, name: string)
    requires name in NamesOf(bs)
    ensures NamesOf(bs)[name] < |bs| && bs[NamesOf(bs)[name]].name == name
    ensures forall j :: NamesOf(bs)[name] < j < |bs| ==> bs[j].name != name
  {
    var last := |bs| - 1;
    var init := bs[..last];
    if bs[last].name != name {
      assert NamesOf(bs)[name] == NamesOf(init)[name];
      NamesOfPositions(init, name);
      var p := NamesOf(init)[name];
      assert bs[p] == init[p];
      forall j | p < j < |bs| ensures bs[j].name != name {
        if j < last { assert bs[j] == init[j]; }
      }
    }
  }

  function LayoutOf(s: ReflSet, stage: bv32): SetLayout
  {
    SetLayout(s.setNumber, seq(|s.bindings|, i requires 0 <= i < |s.bindings| => LayoutBindingOf(s.bindings[i], stage)),
              NamesOf(s.bindings))
  }

  /** The binding loop of `_reflect` for one set. */
  method BuildLayout(s: ReflSet, stage: bv32) returns (l: SetLayout)
    ensures l == LayoutOf(s, stage)
  {
    var bindings: seq<LayoutBinding> := [];
    var names: map<string, nat> := map[];
    var i := 0;
    while i < |s.bindings|
      invariant 0 <= i <= |s.bindings| && |bindings| == i
      invariant forall k :: 0 <= k < i ==> bindings[k] == LayoutBindingOf(s.bindings[k], stage)
      invariant names == NamesOf(s.bindings[..i])
    {
      var b := s.bindings[i];
      var count := DescriptorCount(b.dims);
      bindings := bindings + [LayoutBinding(b.binding, b.dtype, count, stage)];
      assert s.bindings[..i + 1][..i] == s.bindings[..i];
      names := names[b.name := i];
      i := i + 1;
    }
    assert s.bindings[..|s.bindings|] == s.bindings;
    l := SetLayout(s.setNumber, bindings, names);
  }

  // ---- push constants ----------------------------------------------------------

  /** The member loop: one pair per member, in order, until a member is
      rejected. */
  function MemberPairs(ms: seq<ReflMember>): (r: Result<seq<TypePair>>)
    ensures r.Ok? ==> |r.value| == |ms|
  {
    if ms == [] then Ok([])
    else
      match MemberPairs(ms[..|ms| - 1])
      case Err(e) => Err(e)
      case Ok(ps) =>
        var m := ms[|ms| - 1];
        match MemberType(m.flags, m.components, m.signedness)
        case Err(e) => Err(e)
        case Ok(t) => Ok(ps + [TypePair(t, m.name, m.offset)])
  }

  /** The ranges and pairs of a list of push-constant blocks: a range per
      block of positive size, the members of every described block. */
  function BlockConstants(bs: seq<ReflBlock>, stage: bv32): Result<(seq<PushRange>, seq<TypePair>)>
  {
    if bs == [] then Ok(([], [])) else BlockStep(BlockConstants(bs[..|bs| - 1], stage), bs[|bs| - 1], stage)
  }

  /** One block: its range when its size is positive, then its members'
      pairs when it is described. */
  function BlockStep(acc: Result<(seq<PushRange>, seq<TypePair>)>, b: ReflBlock, stage: bv32): Result<(seq<PushRange>, seq<TypePair>)>
  {
    match acc
    case Err(e) => Err(e)
    case Ok(acc) =>
      var ranges := acc.0 + (if b.size > 0 then [PushRange(stage, b.size, b.offset)] else []);
      if b.members.None? then Ok((ranges, acc.1))
      else
        match MemberPairs(b.members.value)
        case Err(e) => Err(e)
        case Ok(ps) => Ok((ranges, acc.1 + ps))
  }

  lemma BlockConstantsPrefix(bs: seq<ReflBlock>, stage: bv32, i: nat)
    requires i < |bs|
    ensures BlockConstants(bs[..i + 1], stage) == BlockStep(BlockConstants(bs[..i], stage), bs[i], stage)
  {
    assert bs[..i + 1][..i] == bs[..i];
  }

  /** Reflection succeeds only when every member of every described block
      has an accepted type, and every kept range has a positive size. */
  lemma {:induction false} BlockConstantsSpec(bs: seq<ReflBlock>, stage: bv32)
    ensures BlockConstants(bs, stage).Ok? ==>
              forall r :: r in BlockConstants(bs, stage).value.0 ==> r.size > 0
    ensures BlockConstants(bs, stage).Ok? ==>
              |BlockConstants(bs, stage).value.0| <= |bs|
  {
    if bs != [] {
      BlockConstantsSpec(bs[..|bs| - 1], stage);
    }
  }

  /** The member loop for one block. */
  method ReflectMembers(ms: seq<ReflMember>) returns (r: Result<seq<TypePair>>)
    ensures r == MemberPairs(ms)
  {
    var pairs: seq<TypePair> := [];
    var i := 0;
    while i < |ms|
      invariant 0 <= i <= |ms| && MemberPairs(ms[..i]) == Ok(pairs)
    {
      assert ms[..i + 1][..i] == ms[..i];
      var m := ms[i];
      var t := MemberType(m.flags, m.components, m.signedness);
      if t.Err? {
        assert ms[..i + 1] == ms[..i] + [m];
        MemberPairsError(ms, i + 1);
        return Err(t.msg);
      }
      pairs := pairs + [TypePair(t.value, m.name, m.offset)];
      i := i + 1;
    }
    assert ms[..|ms|] == ms;
    r := Ok(pairs);
  }

  /** A rejected member fails the whole list. */
  lemma {:induction false} MemberPairsError(ms: seq<ReflMember>, n: nat)
    requires 0 < n <= |ms| && MemberPairs(ms[..n]).Err?
    ensures MemberPairs(ms) == MemberPairs(ms[..n])
    decreases |ms| - n
  {
    if n < |ms| {
      assert ms[..n + 1][..n] == ms[..n];
      MemberPairsError(ms, n + 1);
    } else {
      assert ms[..n] == ms;
    }
  }

  /** A failed prefix of blocks fails the whole list. */
  lemma {:induction false} BlockConstantsError(bs: seq<ReflBlock>, stage: bv32, n: nat)
    requires 0 < n <= |bs| && BlockConstants(bs[..n], stage).Err?
    ensures BlockConstants(bs, stage) == BlockConstants(bs[..n], stage)
    decreases |bs| - n
  {
    if n < |bs| {
      assert bs[..n + 1][..n] == bs[..n];
      BlockConstantsError(bs, stage, n + 1);
    } else {
      assert bs[..n] == bs;
    }
  }

  /** The push-constant loop of `_reflect`. */
  method ReflectBlocks(bs: seq<ReflBlock>, stage: bv32) returns (r: Result<(seq<PushRange>, seq<TypePair>)>)
    ensures r == BlockConstants(bs, stage)
  {
    var ranges: seq<PushRange> := [];
    var pairs: seq<TypePair> := [];
    var i := 0;
    while i < |bs|
      invariant 0 <= i <= |bs| && BlockConstants(bs[..i], stage) == Ok((ranges, pairs))
    {
      BlockConstantsPrefix(bs, stage, i);
      var b := bs[i];
      ghost var before := (ranges, pairs);
      if b.size > 0 {
        ranges := ranges + [PushRange(stage, b.size, b.offset)];
      }
      if b.members.Some? {
        var ps := ReflectMembers(b.members.value);
        if ps.Err? {
          BlockConstantsError(bs, stage, i + 1);
          return Err(ps.msg);
        }
        pairs := pairs + ps.value;
      }
      assert ranges == before.0 + (if b.size > 0 then [PushRange(stage, b.size, b.offset)] else []);
      assert b.members.None? ==> pairs == before.1;
      assert b.members.Some? ==> MemberPairs(b.members.value).Ok? && pairs == before.1 + MemberPairs(b.members.value).value;
      assert BlockStep(Ok(before), b, stage) == Ok((ranges, pairs));
      i := i + 1;
    }
    assert bs[..|bs| - 0] == bs;
    r := Ok((ranges, pairs));
  }

  // ---- ComputeShader -------------------------------------------------------------

  /** The per-bucket descriptor totals, in `uint16_t`. */
  datatype DescriptorCounts = DescriptorCounts(storageBuffers: nat, uniformBuffers: nat, imageSamplers: nat, storageImages: nat)

  /** One step of `descriptor_counts`: the binding's count goes to its
      bucket; other types are ignored. */
  function AddCount(c: DescriptorCounts, b: LayoutBinding): DescriptorCounts
  {
    match b.dtype
    case CombinedImageSampler => c.(imageSamplers := (c.imageSamplers + b.count) % U16)
    case StorageImage => c.(storageImages := (c.storageImages + b.count) % U16)
    case UniformBuffer => c.(uniformBuffers := (c.uniformBuffers + b.count) % U16)
    case StorageBuffer => c.(storageBuffers := (c.storageBuffers + b.count) % U16)
    case OtherType(_) => c
  }

  function CountsOf(bs: seq<LayoutBinding>): DescriptorCounts
  {
    if bs == [] then DescriptorCounts(0, 0, 0, 0) else AddCount(CountsOf(bs[..|bs| - 1]), bs[|bs| - 1])
  }

  /** The descriptors of one type, added up without wrap-around. */
  function TotalOf(bs: seq<LayoutBinding>, t: DescriptorType): nat
  {
    if bs == [] then 0 else TotalOf(bs[..|bs| - 1], t) + (if bs[|bs| - 1].dtype == t then bs[|bs| - 1].count else 0)
  }

  /** Each bucket holds the total count of its type, modulo 2^16. */
  lemma {:induction false} CountsOfTotals(bs: seq<LayoutBinding>)
    ensures CountsOf(bs) == DescriptorCounts(TotalOf(bs, StorageBuffer) % U16, TotalOf(bs, UniformBuffer) % U16,
                                             TotalOf(bs, CombinedImageSampler) % U16, TotalOf(bs, StorageImage) % U16)
  {
    if bs != [] {
      var init, b := bs[..|bs| - 1], bs[|bs| - 1];
      CountsOfTotals(init);
      TotalsStep(bs);
    }
  }

  /** The four totals, each reduced modulo 2^16. */
  function Totals(bs: seq<LayoutBinding>): DescriptorCounts
  {
    DescriptorCounts(TotalOf(bs, StorageBuffer) % U16, TotalOf(bs, UniformBuffer) % U16,
                     TotalOf(bs, CombinedImageSampler) % U16, TotalOf(bs, StorageImage) % U16)
  }

  /** Adding the last binding's count to the reduced totals of the others
      gives the reduced totals of all. */
  lemma TotalsStep(bs: seq<LayoutBinding>)
    requires bs != []
    ensures Totals(bs) == AddCount(Totals(bs[..|bs| - 1]), bs[|bs| - 1])
  {
    var init, b := bs[..|bs| - 1], bs[|bs| - 1];
    match b.dtype
    case CombinedImageSampler => AddMod(TotalOf(init, CombinedImageSampler), b.count, U16);
    case StorageImage => AddMod(TotalOf(init, StorageImage), b.count, U16);
    case UniformBuffer => AddMod(TotalOf(init, UniformBuffer), b.count, U16);
    case StorageBuffer => AddMod(TotalOf(init, StorageBuffer), b.count, U16);
    case OtherType(_) =>
  }

  function AllBindings(ls: seq<SetLayout>): seq<LayoutBinding>
  {
    if ls == [] then [] else AllBindings(ls[..|ls| - 1]) + ls[|ls| - 1].bindings
  }

  lemma {:induction false} CountsOfAppend(a: seq<LayoutBinding>, b: seq<LayoutBinding>, k: nat)
    requires k < |b|
    ensures CountsOf(a + b[..k + 1]) == AddCount(CountsOf(a + b[..k]), b[k])
  {
    assert (a + b[..k + 1])[..|a + b[..k + 1]| - 1] == a + b[..k];
  }

  /** The state `_reflect` leaves. */
  datatype ShaderState = ShaderState(setLayouts: seq<SetLayout>, localSizes: Vec3,
                                     pushConstants: seq<PushRange>, types: seq<TypePair>)

  /** `_reflect`: more than one descriptor set, a missing entry point or a
      rejected member type fail; otherwise the layouts of the sets, the
      entry point's local size and the push constants. */
  function ReflectSpec(r: Reflection): Result<ShaderState>
  {
    if |r.sets| > 1 then Err("Too many descriptor sets in shader.")
    else if r.entryLocal.None? then Err("Failed to get spirv entry point.")
    else
      match BlockConstants(r.blocks, r.stage)
      case Err(e) => Err(e)
      case Ok(pc) =>
        Ok(ShaderState(seq(|r.sets|, i requires 0 <= i < |r.sets| => LayoutOf(r.sets[i], r.stage)),
                       r.entryLocal.value, pc.0, pc.1))
  }

  /** The state after `_reflect` pushes what it found onto the vectors. */
  function Appended(s: ShaderState, found: ShaderState): ShaderState
  {
    ShaderState(s.setLayouts + found.setLayouts, found.localSizes,
                s.pushConstants + found.pushConstants, s.types + found.types)
  }

  class ComputeShader {
    var path: string
    var setLayouts: seq<SetLayout>
    var localSizes: Vec3
    var pushConstants: seq<PushRange>
    var types: seq<TypePair>

    function State(): ShaderState
      reads this
    {
      ShaderState(setLayouts, localSizes, pushConstants, types)
    }

    constructor ()
      ensures setLayouts == [] && pushConstants == [] && types == [] && path == ""
    {
      path, setLayouts, localSizes, pushConstants, types := "", [], Vec3(0, 0, 0), [], [];
    }

    /** `create(path, main_name)` on a module that loaded: records the path
        and reflects. */
    method Create(p: string, r: Reflection) returns (res: Result<()>)
      modifies this
      ensures path == p
      ensures res.Ok? <==> ReflectSpec(r).Ok?
      ensures res.Ok? ==> State() == Appended(old(State()), ReflectSpec(r).value)
      ensures res.Err? ==> State() == old(State())
    {
      path := p;
      res := Reflect(r);
    }

    /** `_reflect`: on success the layouts, push-constant ranges and member
        types `ReflectSpec` gives are appended and the local size is
        recorded; on failure nothing is recorded. */
    method Reflect(r: Reflection) returns (res: Result<()>)
      modifies this
      ensures res.Ok? <==> ReflectSpec(r).Ok?
      ensures res.Ok? ==> State() == Appended(old(State()), ReflectSpec(r).value)
      ensures res.Err? ==> State() == old(State()) && res.msg == ReflectSpec(r).msg
      ensures path == old(path)
    {
      if |r.sets| > 1 {
        return Err("Too many descriptor sets in shader.");
      }
      var layouts: seq<SetLayout> := [];
      if |r.sets| == 1 {
        var l := BuildLayout(r.sets[0], r.stage);
        layouts := [l];
      }
      if r.entryLocal.None? {
        return Err("Failed to get spirv entry point.");
      }
      var pc := ReflectBlocks(r.blocks, r.stage);
      if pc.Err? {
        return Err(pc.msg);
      }
      setLayouts, localSizes := setLayouts + layouts, r.entryLocal.value;
      pushConstants, types := pushConstants + pc.value.0, types + pc.value.1;
      res := Ok(());
    }

    /** `descriptor_counts()`: adds every binding's count into its bucket. */
    method DescriptorCountsOf() returns (c: DescriptorCounts)
      ensures c == CountsOf(AllBindings(setLayouts))
    {
      c := DescriptorCounts(0, 0, 0, 0);
      var li := 0;
      while li < |setLayouts|
        invariant 0 <= li <= |setLayouts| && c == CountsOf(AllBindings(setLayouts[..li]))
      {
        var bs := setLayouts[li].bindings;
        ghost var before := AllBindings(setLayouts[..li]);
        assert AllBindings(setLayouts[..li + 1]) == before + bs by {
          assert setLayouts[..li + 1][..li] == setLayouts[..li];
        }
        var bi := 0;
        assert before + bs[..0] == before;
        while bi < |bs|
          invariant 0 <= bi <= |bs| && c == CountsOf(before + bs[..bi])
        {
          CountsOfAppend(before, bs, bi);
          c := AddCount(c, bs[bi]);
          bi := bi + 1;
        }
        assert bs[..|bs|] == bs;
        li := li + 1;
      }
      assert setLayouts[..|setLayouts|] == setLayouts;
    }

    /** `desc_set_layout()`: more than one set fails; otherwise a new layout
        with every binding added in order (renumbered by position) and
        created. */
    method DescSetLayout() returns (r: Result<DescriptorLayout>)
      ensures |setLayouts| > 1 <==> r.Err?
      ensures r.Ok? ==> fresh(r.value) && r.value.Valid() &&
                        r.value.createdBindings == r.value.bindings == Renumbered(AllBindings(setLayouts))
    {
      if |setLayouts| > 1 {
        return Err("Too many descriptor sets in shader.");
      }
      var layout := new DescriptorLayout();
      var all := AllBindings(setLayouts);
      assert |setLayouts| == 1 ==> all == setLayouts[0].bindings by {
        if |setLayouts| == 1 {
          assert setLayouts[..0] == [];
          assert AllBindings(setLayouts[..0]) == [];
        }
      }
      var i := 0;
      while i < |all|
        invariant 0 <= i <= |all| && layout.Valid() && layout.bindings == Renumbered(all[..i])
        modifies layout
      {
        assert all[..i + 1][..i] == all[..i];
        layout.Add(all[i].dtype, all[i].count, all[i].stage);
        i := i + 1;
      }
      assert all[..|all|] == all;
      layout.Create();
      r := Ok(layout);
    }
  }

  /** The bindings as `DescriptorLayout::add` records them: same type,
      count and stage, numbered by position. */
  function Renumbered(bs: seq<LayoutBinding>): (r: seq<LayoutBinding>)
    ensures |r| == |bs| && Numbered(r)
    ensures forall k :: 0 <= k < |bs| ==> r[k] == bs[k].(binding := k)
  {
    seq(|bs|, k requires 0 <= k < |bs| => bs[k].(binding := k))
  }
}
