// Vulkan enum and flag serialisers (src/vulkan_enum.cpp): result codes,
// device types and formats to names, and feature and flag structures to
// multi-line text built by repeated appends.
module VulkanEnums {
  import opened Wrappers
  import opened Strings

  /** A name table: codes with their full Vulkan names. */
  type Table = seq<(int, string)>

  predicate Ascending(t: Table)
  {
    forall i :: 0 <= i < |t| - 1 ==> t[i].0 < t[i + 1].0
  }

  /** The name of the first entry with `code`. */
  function Lookup(t: Table, code: int): (r: Option<string>)
    ensures r.None? <==> forall k :: 0 <= k < |t| ==> t[k].0 != code
    ensures r.Some? ==> exists k :: 0 <= k < |t| && t[k] == (code, r.value)
  {
    if t == [] then None
    else if t[0].0 == code then Some(t[0].1)
    else
      var r := Lookup(t[1..], code);
      assert r.Some? ==> exists k :: 0 <= k < |t[1..]| && t[1..][k] == (code, r.value);
      assert r.Some? ==> exists k :: 0 <= k < |t| && t[k] == (code, r.value) by {
        if r.Some? {
          var k :| 0 <= k < |t[1..]| && t[1..][k] == (code, r.value);
          assert t[k + 1] == (code, r.value);
        }
      }
      r
  }

  /** In a table sorted by code every entry is found by its own code. */
  lemma {:induction false} LookupAscending(t: Table, k: nat)
    requires Ascending(t) && k < |t|
    ensures Lookup(t, t[k].0) == Some(t[k].1)
  {
    if k > 0 {
      assert t[0].0 < t[k].0 by { AscendingFirst(t, k); }
      LookupAscending(t[1..], k - 1);
    }
  }

  lemma {:induction false} AscendingFirst(t: Table, k: nat)
    requires Ascending(t) && 0 < k < |t|
    ensures t[0].0 < t[k].0
  {
    if k > 1 {
      AscendingFirst(t, k - 1);
    }
  }

  /** The result codes `error_string` names, by value. */
  const ResultNames: Table := [
    (-1000012000, "VK_ERROR_INVALID_SHADER_NV"),
    (-1000011001, "VK_ERROR_VALIDATION_FAILED_EXT"),
    (-1000003001, "VK_ERROR_INCOMPATIBLE_DISPLAY_KHR"),
    (-1000001004, "VK_ERROR_OUT_OF_DATE_KHR"),
    (-1000000001, "VK_ERROR_NATIVE_WINDOW_IN_USE_KHR"),
    (-1000000000, "VK_ERROR_SURFACE_LOST_KHR"),
    (-11, "VK_ERROR_FORMAT_NOT_SUPPORTED"),
    (-10, "VK_ERROR_TOO_MANY_OBJECTS"),
    (-9, "VK_ERROR_INCOMPATIBLE_DRIVER"),
    (-8, "VK_ERROR_FEATURE_NOT_PRESENT"),
    (-7, "VK_ERROR_EXTENSION_NOT_PRESENT"),
    (-6, "VK_ERROR_LAYER_NOT_PRESENT"),
    (-5, "VK_ERROR_MEMORY_MAP_FAILED"),
    (-4, "VK_ERROR_DEVICE_LOST"),
    (-3, "VK_ERROR_INITIALIZATION_FAILED"),
    (-2, "VK_ERROR_OUT_OF_DEVICE_MEMORY"),
    (-1, "VK_ERROR_OUT_OF_HOST_MEMORY"),
    (1, "VK_NOT_READY"),
    (2, "VK_TIMEOUT"),
    (3, "VK_EVENT_SET"),
    (4, "VK_EVENT_RESET"),
    (5, "VK_INCOMPLETE"),
    (1000001003, "VK_SUBOPTIMAL_KHR")
  ]

  const VK_SUCCESS: int := 0

  /** `error_string`: a listed code's name without the "VK_" prefix,
      "UNKNOWN_ERROR" for anything else. */
  function ErrorString(code: int): string
  {
    match Lookup(ResultNames, code)
    case Some(name) => if |name| >= 3 then name[3..] else name
    case None => "UNKNOWN_ERROR"
  }

  /** Every name in the result table carries the "VK_" prefix. */
  lemma ResultNamesPrefixed()
    ensures forall k :: 0 <= k < |ResultNames| ==> "VK_" <= ResultNames[k].1
  {
  }

  /** Every listed code maps to its Vulkan name minus "VK_". */
  lemma ErrorStringListed(k: nat)
    requires k < |ResultNames|
    ensures "VK_" + ErrorString(ResultNames[k].0) == ResultNames[k].1
  {
    assert Ascending(ResultNames);
    ResultNamesPrefixed();
    PrefixedEntry(ResultNames, k);
  }

  /** In an ascending table, entry `k` is found under its code, and a name
      starting "VK_" is that prefix and the rest. */
  lemma PrefixedEntry(t: seq<(int, string)>, k: nat)
    requires Ascending(t) && k < |t| && "VK_" <= t[k].1
    ensures Lookup(t, t[k].0) == Some(t[k].1)
    ensures |t[k].1| >= 3 && "VK_" + t[k].1[3..] == t[k].1
  {
    LookupAscending(t, k);
    var name := t[k].1;
    assert name == name[..3] + name[3..];
  }

  /** VK_SUCCESS and every unlisted code map to "UNKNOWN_ERROR". */
  lemma ErrorStringUnknown(code: int)
    ensures (forall j :: 0 <= j < |ResultNames| ==> ResultNames[j].0 != code) ==> ErrorString(code) == "UNKNOWN_ERROR"
    ensures ErrorString(VK_SUCCESS) == "UNKNOWN_ERROR"
  {
    assert forall j :: 0 <= j < |ResultNames| ==> ResultNames[j].0 != VK_SUCCESS;
  }

  /** `physical_device_to_string`: four named types; anything else, the
      CPU type included, is "UNKNOWN_DEVICE_TYPE". */
  function PhysicalDeviceToString(deviceType: int): (r: string)
    ensures 0 <= deviceType <= 3 ==> r != "UNKNOWN_DEVICE_TYPE"
    ensures !(0 <= deviceType <= 3) ==> r == "UNKNOWN_DEVICE_TYPE"
  {
    if deviceType == 0 then "OTHER"
    else if deviceType == 1 then "INTEGRATED_GPU"
    else if deviceType == 2 then "DISCRETE_GPU"
    else if deviceType == 3 then "VIRTUAL_GPU"
    else "UNKNOWN_DEVICE_TYPE"
  }

  /** The formats `format_to_string` names, by value. */
  const FormatNames: Table := [
    (44, "VK_FORMAT_B8G8R8A8_UNORM"),
    (124, "VK_FORMAT_D16_UNORM"),
    (126, "VK_FORMAT_D32_SFLOAT"),
    (128, "VK_FORMAT_D16_UNORM_S8_UINT"),
    (129, "VK_FORMAT_D24_UNORM_S8_UINT"),
    (130, "VK_FORMAT_D32_SFLOAT_S8_UINT")
  ]

  /** `format_to_string`: the full name of a listed format, "" otherwise. */
  function FormatToString(format: int): (r: string)
  {
    match Lookup(FormatNames, format)
    case Some(name) => name
    case None => ""
  }

  lemma FormatToStringNames(k: nat, format: int)
    requires k < |FormatNames|
    ensures FormatToString(FormatNames[k].0) == FormatNames[k].1 != ""
    ensures (forall j :: 0 <= j < |FormatNames| ==> FormatNames[j].0 != format) ==> FormatToString(format) == ""
  {
    assert Ascending(FormatNames);
    LookupAscending(FormatNames, k);
  }

  // ---- feature structures ----

  /** One line of a feature string. */
  function FeatureLine(name: string, value: int): string
  {
    name + ": " + (if value != 0 then "true" else "false") + "\n"
  }

  /** The feature string: one line per field, in field order. */
  function FeatureString(names: seq<string>, values: seq<int>): string
    requires |names| == |values|
  {
    if names == [] then "" else FeatureLine(names[0], values[0]) + FeatureString(names[1..], values[1..])
  }

  lemma {:induction false} FeatureStringAppend(names: seq<string>, values: seq<int>, n: string, v: int)
    requires |names| == |values|
    ensures FeatureString(names + [n], values + [v]) == FeatureString(names, values) + FeatureLine(n, v)
  {
    if names == [] {
      assert FeatureString([n], [v]) == FeatureLine(n, v) + FeatureString([], []);
    } else {
      assert (names + [n])[1..] == names[1..] + [n];
      assert (values + [v])[1..] == values[1..] + [v];
      FeatureStringAppend(names[1..], values[1..], n, v);
    }
  }

  /** Reads a feature string back: for each field in order, a line naming
      it and saying true or false. */
  function ParseFeatures(names: seq<string>, s: string): Option<seq<bool>>
    decreases names
  {
    if names == [] then (if s == "" then Some([]) else None)
    else
      var yes := names[0] + ": true\n";
      var no := names[0] + ": false\n";
      if yes <= s then
        match ParseFeatures(names[1..], s[|yes|..])
        case None => None
        case Some(rest) => Some([true] + rest)
      else if no <= s then
        match ParseFeatures(names[1..], s[|no|..])
        case None => None
        case Some(rest) => Some([false] + rest)
      else None
  }

  /** The truth of each field: a VkBool32 is true iff non-zero. */
  function Truths(values: seq<int>): (r: seq<bool>)
    ensures |r| == |values|
    ensures forall k :: 0 <= k < |values| ==> r[k] == (values[k] != 0)
  {
    if values == [] then [] else [values[0] != 0] + Truths(values[1..])
  }

  /** The feature string says, field by field and in order, exactly which
      features are on. */
  lemma {:induction false} FeatureStringParses(names: seq<string>, values: seq<int>)
    requires |names| == |values|
    ensures ParseFeatures(names, FeatureString(names, values)) == Some(Truths(values))
  {
    if names != [] {
      var s := FeatureString(names, values);
      var line := FeatureLine(names[0], values[0]);
      var rest := FeatureString(names[1..], values[1..]);
      assert s == line + rest;
      FeatureStringParses(names[1..], values[1..]);
      var yes := names[0] + ": true\n";
      if values[0] != 0 {
        assert line == yes;
        assert s[|yes|..] == rest;
      } else {
        var no := names[0] + ": false\n";
        assert line == no;
        assert !(yes <= s) by {
          assert s[|names[0]| + 2] == 'f';
          assert yes[|names[0]| + 2] == 't';
        }
        assert s[|no|..] == rest;
      }
    }
  }

  /** The builders in the source: an empty string and one append per
      field. */
  method BuildFeatureString(names: seq<string>, values: seq<int>) returns (outs: string)
    requires |names| == |values|
    ensures outs == FeatureString(names, values)
  {
    outs := "";
    var i := 0;
    while i < |names|
      invariant 0 <= i <= |names|
      invariant outs == FeatureString(names[..i], values[..i])
    {
      FeatureStringAppend(names[..i], values[..i], names[i], values[i]);
      assert names[..i + 1] == names[..i] + [names[i]];
      assert values[..i + 1] == values[..i] + [values[i]];
      outs := outs + FeatureLine(names[i], values[i]);
      i := i + 1;
    }
    assert names[..i] == names && values[..i] == values;
  }

  /** The fields of VkPhysicalDevice8BitStorageFeaturesKHR, in order. */
  const Features8Bit: seq<string> := ["storageBuffer8BitAccess", "uniformAndStorageBuffer8BitAccess", "storagePushConstant8"]

  /** The fields of VkPhysicalDevice16BitStorageFeatures, in order. */
  const Features16Bit: seq<string> := ["storageBuffer16BitAccess", "uniformAndStorageBuffer16BitAccess",
                                       "storagePushConstant16", "storageInputOutput16"]

  /** The fields of VkPhysicalDeviceFeatures, in order. */
  const FeaturesCore: seq<string> := [
    "robustBufferAccess", "fullDrawIndexUint32", "imageCubeArray", "independentBlend",
    "geometryShader", "tessellationShader", "sampleRateShading", "dualSrcBlend", "logicOp",
    "multiDrawIndirect", "drawIndirectFirstInstance", "depthClamp", "depthBiasClamp",
    "fillModeNonSolid", "depthBounds", "wideLines", "largePoints", "alphaToOne", "multiViewport",
    "samplerAnisotropy", "textureCompressionETC2", "textureCompressionASTC_LDR",
    "textureCompressionBC", "occlusionQueryPrecise", "pipelineStatisticsQuery",
    "vertexPipelineStoresAndAtomics", "fragmentStoresAndAtomics",
    "shaderTessellationAndGeometryPointSize", "shaderImageGatherExtended",
    "shaderStorageImageExtendedFormats", "shaderStorageImageMultisample",
    "shaderStorageImageReadWithoutFormat", "shaderStorageImageWriteWithoutFormat",
    "shaderUniformBufferArrayDynamicIndexing", "shaderSampledImageArrayDynamicIndexing",
    "shaderStorageBufferArrayDynamicIndexing", "shaderStorageImageArrayDynamicIndexing",
    "shaderClipDistance", "shaderCullDistance", "shaderFloat64", "shaderInt64", "shaderInt16",
    "shaderResourceResidency", "shaderResourceMinLod", "sparseBinding", "sparseResidencyBuffer",
    "sparseResidencyImage2D", "sparseResidencyImage3D", "sparseResidency2Samples",
    "sparseResidency4Samples", "sparseResidency8Samples", "sparseResidency16Samples",
    "sparseResidencyAliased", "variableMultisampleRate", "inheritedQueries"]

  // ---- flag masks ----

  /** Whether `flags` has the bit set. */
  predicate Has(flags: bv32, bit: bv32)
  {
    flags & bit != 0
  }

  /** The flag string: "\tNAME\n" for each listed bit that is set, in
      table order. */
  function FlagString(t: seq<(bv32, string)>, flags: bv32): string
  {
    if t == [] then ""
    else (if Has(flags, t[0].0) then "\t" + t[0].1 + "\n" else "") + FlagString(t[1..], flags)
  }

  /** The string is empty iff no listed bit is set. */
  lemma {:induction false} FlagStringEmpty(t: seq<(bv32, string)>, flags: bv32)
    ensures FlagString(t, flags) == "" <==> forall k :: 0 <= k < |t| ==> !Has(flags, t[k].0)
  {
    if t != [] {
      FlagStringEmpty(t[1..], flags);
      if Has(flags, t[0].0) {
        assert |FlagString(t, flags)| > 0;
      } else {
        assert forall k :: 1 <= k < |t| ==> t[k] == t[1..][k - 1];
      }
    }
  }

  /** Unlisted bits are ignored: masks that agree on every listed bit give
      the same string. */
  lemma {:induction false} FlagStringListedOnly(t: seq<(bv32, string)>, a: bv32, b: bv32)
    requires forall k :: 0 <= k < |t| ==> Has(a, t[k].0) == Has(b, t[k].0)
    ensures FlagString(t, a) == FlagString(t, b)
  {
    if t != [] {
      assert forall k :: 0 <= k < |t[1..]| ==> t[1..][k] == t[k + 1];
      FlagStringListedOnly(t[1..], a, b);
    }
  }

  lemma {:induction false} FlagStringAppend(t: seq<(bv32, string)>, e: (bv32, string), flags: bv32)
    ensures FlagString(t + [e], flags) == FlagString(t, flags) + (if Has(flags, e.0) then "\t" + e.1 + "\n" else "")
  {
    if t == [] {
      assert FlagString([e], flags) == (if Has(flags, e.0) then "\t" + e.1 + "\n" else "") + FlagString([], flags);
    } else {
      assert (t + [e])[0] == t[0] && (t + [e])[1..] == t[1..] + [e];
      FlagStringAppend(t[1..], e, flags);
      AppendAssoc(if Has(flags, t[0].0) then "\t" + t[0].1 + "\n" else "", FlagString(t[1..], flags),
                  if Has(flags, e.0) then "\t" + e.1 + "\n" else "");
    }
  }

  /** The flag builders: one conditional append per listed bit. */
  method BuildFlagString(t: seq<(bv32, string)>, flags: bv32) returns (outs: string)
    ensures outs == FlagString(t, flags)
  {
    outs := "";
    var i := 0;
    while i < |t|
      invariant 0 <= i <= |t|
      invariant outs == FlagString(t[..i], flags)
    {
      FlagStringAppend(t[..i], t[i], flags);
      assert t[..i + 1] == t[..i] + [t[i]];
      outs := outs + (if flags & t[i].0 != 0 then "\t" + t[i].1 + "\n" else "");
      i := i + 1;
    }
    assert t[..i] == t;
  }

  const MemoryPropertyFlags: seq<(bv32, string)> := [
    (0x1, "VK_MEMORY_PROPERTY_DEVICE_LOCAL_BIT"),
    (0x2, "VK_MEMORY_PROPERTY_HOST_VISIBLE_BIT"),
    (0x4, "VK_MEMORY_PROPERTY_HOST_COHERENT_BIT"),
    (0x8, "VK_MEMORY_PROPERTY_HOST_CACHED_BIT"),
    (0x10, "VK_MEMORY_PROPERTY_LAZILY_ALLOCATED_BIT"),
    (0x20, "VK_MEMORY_PROPERTY_PROTECTED_BIT")]

  const MemoryHeapFlags: seq<(bv32, string)> := [
    (0x1, "VK_MEMORY_HEAP_DEVICE_LOCAL_BIT"),
    (0x2, "VK_MEMORY_HEAP_MULTI_INSTANCE_BIT")]

  const QueueFlags: seq<(bv32, string)> := [
    (0x1, "VK_QUEUE_GRAPHICS_BIT"),
    (0x2, "VK_QUEUE_COMPUTE_BIT"),
    (0x4, "VK_QUEUE_TRANSFER_BIT"),
    (0x8, "VK_QUEUE_SPARSE_BINDING_BIT"),
    (0x10, "VK_QUEUE_PROTECTED_BIT")]
}
