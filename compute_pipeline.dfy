// `ComputePipeline::create` (src/compute_pipeline.cpp): the specialisation
// entries that carry a kernel's local group sizes into its shader.
module ComputePipelines {
  import opened Wrappers
  import opened DispatchPlan

  /** `VkSpecializationMapEntry`. */
  datatype MapEntry = MapEntry(constantId: nat, offset: nat, size: nat)

  /** `VkSpecializationInfo`: the entries, the byte count of the data they
      read, and the data (the three local sizes). */
  datatype SpecInfo = SpecInfo(entries: seq<MapEntry>, dataSize: int, data: Vec3)

  datatype BindPoint = Graphics | Compute

  function SizeSum(es: seq<MapEntry>): int
  {
    if es == [] then 0 else SizeSum(es[..|es| - 1]) + es[|es| - 1].size
  }

  /** The entries the local-size form builds: id i at byte 4i, 4 bytes. */
  method LocalSizeEntries() returns (es: seq<MapEntry>)
    ensures |es| == 3
    ensures forall i :: 0 <= i < 3 ==> es[i] == MapEntry(i, 4 * i, 4)
  {
    es := [MapEntry(0, 0, 0), MapEntry(0, 0, 0), MapEntry(0, 0, 0)];
    var i := 0;
    while i < 3
      invariant 0 <= i <= 3 && |es| == 3
      invariant forall k :: 0 <= k < i ==> es[k] == MapEntry(k, 4 * k, 4)
    {
      es := es[i := MapEntry(i, 4 * i, 4)];
      i := i + 1;
    }
  }

  /** The byte total the second loop of `create` adds up. */
  method SumSizes(es: seq<MapEntry>) returns (total: int)
    ensures total == SizeSum(es)
  {
    total := 0;
    var i := 0;
    while i < |es|
      invariant 0 <= i <= |es| && total == SizeSum(es[..i])
    {
      assert es[..i + 1][..i] == es[..i];
      total := total + es[i].size;
      i := i + 1;
    }
    assert es[..|es|] == es;
  }

  /** Uniform entries of `n` bytes each need `n` bytes apiece. */
  lemma {:induction false} SizeSumUniform(es: seq<MapEntry>, n: nat)
    requires forall i :: 0 <= i < |es| ==> es[i].size == n
    ensures SizeSum(es) == |es| * n
  {
    if es != [] {
      SizeSumUniform(es[..|es| - 1], n);
    }
  }

  class ComputePipeline {
    var localSizes: Vec3
    var bindPoint: BindPoint
    /** The specialisation the pipeline was created with, if any. */
    var spec: Option<SpecInfo>

    constructor ()
      ensures bindPoint == Graphics && spec == None
    {
      localSizes, bindPoint, spec := Vec3(0, 0, 0), Graphics, None;
    }

    /** `create(layout, shader, specialisations)`: binds to compute and
        attaches specialisation info only for a non-empty entry list. */
    method CreateWith(es: seq<MapEntry>)
      modifies this
      ensures bindPoint == Compute && localSizes == old(localSizes)
      ensures spec == (if es == [] then None else Some(SpecInfo(es, SizeSum(es), localSizes)))
    {
      bindPoint := Compute;
      if |es| > 0 {
        var total := SumSizes(es);
        spec := Some(SpecInfo(es, total, localSizes));
      } else {
        spec := None;
      }
    }

    /** `create(layout, shader, local_sizes)`: three 4-byte entries over
        the local sizes, 12 bytes in all. */
    method CreateForLocalSizes(sizes: Vec3)
      modifies this
      ensures bindPoint == Compute && localSizes == sizes
      ensures spec.Some? && spec.value.data == sizes && spec.value.dataSize == 12
      ensures |spec.value.entries| == 3
      ensures forall i :: 0 <= i < 3 ==> spec.value.entries[i] == MapEntry(i, 4 * i, 4)
    {
      var es := LocalSizeEntries();
      localSizes := sizes;
      SizeSumUniform(es, 4);
      CreateWith(es);
    }
  }
}
