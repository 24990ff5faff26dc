// `DescriptorLayout` (src/descriptor_layout.cpp): the bindings of one
// descriptor set layout, numbered in the order they are added, and the
// bindings the Vulkan layout object was last created from.
module DescriptorLayouts {
  /** The descriptor types the editor's shaders use; any other reflected
      type keeps its numeric code. */
  datatype DescriptorType =
    | CombinedImageSampler | StorageImage | UniformBuffer | StorageBuffer
    | OtherType(code: int)

  /** `VkDescriptorSetLayoutBinding`; `pImmutableSamplers` is always null
      and left out. */
  datatype LayoutBinding = LayoutBinding(binding: nat, dtype: DescriptorType, count: nat, stage: bv32)

  /** The k-th binding carries binding number k. */
  predicate Numbered(bs: seq<LayoutBinding>)
  {
    forall k :: 0 <= k < |bs| ==> bs[k].binding == k
  }

  class DescriptorLayout {
    var bindings: seq<LayoutBinding>
    var createdBindings: seq<LayoutBinding>

    ghost predicate Valid()
      reads this
    {
      Numbered(bindings) && Numbered(createdBindings)
    }

    constructor ()
      ensures Valid() && bindings == [] && createdBindings == []
    {
      bindings, createdBindings := [], [];
    }

    /** `add(type, count, stage)`: appends one binding numbered by the
        current binding count. */
    method Add(dtype: DescriptorType, count: nat, stage: bv32)
      requires Valid()
      modifies this
      ensures Valid()
      ensures bindings == old(bindings) + [LayoutBinding(|old(bindings)|, dtype, count, stage)]
      ensures createdBindings == old(createdBindings)
    {
      bindings := bindings + [LayoutBinding(|bindings|, dtype, count, stage)];
    }

    /** `create()`: the layout object is made from, and remembers, the
        current bindings. */
    method Create()
      requires Valid()
      modifies this
      ensures Valid() && createdBindings == bindings && bindings == old(bindings)
    {
      createdBindings := bindings;
    }

    /** `clear()`: drops the pending bindings; the created ones stay. */
    method Clear()
      requires Valid()
      modifies this
      ensures Valid() && bindings == [] && createdBindings == old(createdBindings)
    {
      bindings := [];
    }
  }

  /** Adding after a `create` leaves the created bindings as they were
      until the next `create`. */
  method AddAfterCreate(l: DescriptorLayout, dtype: DescriptorType, count: nat, stage: bv32)
    requires l.Valid()
    modifies l
    ensures l.Valid() && l.createdBindings == old(l.bindings)
    ensures l.bindings == old(l.bindings) + [LayoutBinding(|old(l.bindings)|, dtype, count, stage)]
  {
    l.Create();
    l.Add(dtype, count, stage);
  }
}
