// `DescriptorPool` (src/descriptor_pool.cpp): the pool sizes requested per
// descriptor type, and the creation parameters.
module DescriptorPools {
  import opened DescriptorLayouts

  /** `VkDescriptorPoolSize`. */
  datatype PoolSize = PoolSize(dtype: DescriptorType, count: nat)

  /** What `vkCreateDescriptorPool` is given. */
  datatype PoolInfo = PoolInfo(sizes: seq<PoolSize>, maxSets: nat, freeDescriptorSet: bool)

  /** The entries a sequence of `add_*` calls leaves: zero counts add
      nothing, the others one entry each, in call order. */
  function Requested(calls: seq<PoolSize>): (r: seq<PoolSize>)
    ensures |r| <= |calls|
    ensures forall e :: e in r ==> e in calls && e.count > 0
  {
    if calls == [] then []
    else Requested(calls[..|calls| - 1]) + (if calls[|calls| - 1].count > 0 then [calls[|calls| - 1]] else [])
  }

  class DescriptorPool {
    var elements: seq<PoolSize>
    var created: seq<PoolInfo>

    constructor ()
      ensures elements == [] && created == []
    {
      elements, created := [], [];
    }

    /** `add_storage_image`, `add_combined_image_sampler`,
        `add_uniform_buffer`, `add_storage_buffer`: one entry when the
        count is positive. */
    method AddSize(dtype: DescriptorType, count: nat)
      modifies this
      ensures elements == old(elements) + (if count > 0 then [PoolSize(dtype, count)] else [])
      ensures created == old(created)
    {
      if count > 0 {
        elements := elements + [PoolSize(dtype, count)];
      }
    }

    /** `create(max_sets)`: every entry, the set limit and the
        free-descriptor-set flag. */
    method Create(maxSets: nat)
      modifies this
      ensures created == old(created) + [PoolInfo(elements, maxSets, true)] && elements == old(elements)
    {
      created := created + [PoolInfo(elements, maxSets, true)];
    }
  }

  /** A run of `add_*` calls leaves exactly the requested entries. */
  method AddAll(p: DescriptorPool, calls: seq<PoolSize>)
    modifies p
    ensures p.elements == old(p.elements) + Requested(calls) && p.created == old(p.created)
  {
    var i := 0;
    while i < |calls|
      invariant 0 <= i <= |calls|
      invariant p.elements == old(p.elements) + Requested(calls[..i]) && p.created == old(p.created)
    {
      assert calls[..i + 1][..i] == calls[..i];
      p.AddSize(calls[i].dtype, calls[i].count);
      i := i + 1;
    }
    assert calls[..|calls|] == calls;
  }

  /** Entries keep call order: the positive-count calls, in order. */
  lemma {:induction false} RequestedKeepsOrder(calls: seq<PoolSize>, extra: PoolSize)
    ensures Requested(calls + [extra]) == Requested(calls) + (if extra.count > 0 then [extra] else [])
  {
    assert (calls + [extra])[..|calls|] == calls;
  }
}
