// Block editing (src/inputs/blockedit.*): four cached parameters describing
// a block of frames, and the translation of a frame index into the block's
// content.
module BlockEdit {
  import opened Parameters
  import ParameterCache
  import opened MakeParam
  import opened ParamMaps

  /** The index `translate` gives: the frame shifted by the content-relative
      start, then kept at or above 0 and, when clamping, at or below the total
      frame count. */
  function TranslateIndex(index: int, crs: int, tot: int, clamp: bool): (r: int)
    requires clamp ==> 0 <= tot
    ensures 0 <= r
    ensures clamp ==> r <= tot
    ensures clamp && 0 <= index + crs <= tot ==> r == index + crs
    ensures !clamp && 0 <= index + crs ==> r == index + crs
    ensures index + crs < 0 ==> r == 0
    ensures clamp && tot < index + crs ==> r == tot
  {
    var v := index + crs;
    if clamp then (if v < 0 then 0 else if tot < v then tot else v)
    else (if v < 0 then 0 else v)
  }

  /** `translate(frame, clamp)`: only the index changes. */
  function Translate(frame: Frame, crs: Frame, tot: int, clamp: bool): (r: Frame)
    requires clamp ==> 0 <= tot
    ensures r.index == TranslateIndex(frame.index, crs.index, tot, clamp)
  {
    frame.(index := TranslateIndex(frame.index, crs.index, tot, clamp))
  }

  /** Translation is monotone in the frame index and idempotent once the
      shift is zero. */
  lemma TranslateMonotone(a: int, b: int, crs: int, tot: int, clamp: bool)
    requires clamp ==> 0 <= tot
    requires a <= b
    ensures TranslateIndex(a, crs, tot, clamp) <= TranslateIndex(b, crs, tot, clamp)
    ensures TranslateIndex(TranslateIndex(a, 0, tot, clamp), 0, tot, clamp) == TranslateIndex(a, 0, tot, clamp)
  {
  }

  const TotalFrameCountName: string := "_total_frame_count"
  const FrameStartBlockName: string := "frame_start_block"
  const FrameEndBlockName: string := "frame_end_block"
  const ContentRelativeStartName: string := "content_relative_start"

  /** One cached lookup after another: each leaves every earlier entry of
      the cache in place, so all of `ks` stay mapped as they were. */
  method MakeNext(cache: ParameterCache.ParameterCache, t: ParameterType, st: Storage, hash: string,
                  name: string, ghost before: map<string, Parameter>) returns (p: Parameter)
    requires StorageFits(t, st)
    requires forall k :: k in before ==> k in cache.params && cache.params[k] == before[k]
    modifies cache, cache.params.Values
    ensures Key(t, hash, name) in cache.params && cache.params[Key(t, hash, name)] == p
    ensures forall k :: k in before ==> k in cache.params && cache.params[k] == before[k]
    ensures forall k :: k in old(cache.params) ==> k in cache.params && cache.params[k] == old(cache.params[k])
    ensures forall k :: k in cache.params ==> cache.params[k] in old(cache.params.Values) || fresh(cache.params[k])
  {
    p := MakeCached(cache, t, st, hash, name, 0, {});
  }

  /** Emplaces each parameter into group "_" under its own name, in order. */
  method EmplaceAll(pm: ParamMap, a: Parameter, b: Parameter, c: Parameter, d: Parameter)
    modifies pm
    ensures pm.groups ==
      EmplaceIn(EmplaceIn(EmplaceIn(EmplaceIn(old(pm.groups), "_", a.name, a), "_", b.name, b), "_", c.name, c),
                "_", d.name, d)
  {
    pm.Emplace("_", a.name, a);
    pm.Emplace("_", b.name, b);
    pm.Emplace("_", c.name, c);
    pm.Emplace("_", d.name, d);
  }

  /** The four cached lookups of the constructor, in its order. */
  method MakeFour(cache: ParameterCache.ParameterCache, hash: string, intStorage: Storage, frameStorage: Storage)
    returns (t: Parameter, s: Parameter, e: Parameter, c: Parameter)
    requires StorageFits(PInt, intStorage) && StorageFits(PFrame, frameStorage)
    modifies cache, cache.params.Values
    ensures Key(PInt, hash, TotalFrameCountName) in cache.params
    ensures cache.params[Key(PInt, hash, TotalFrameCountName)] == t
    ensures Key(PFrame, hash, FrameStartBlockName) in cache.params
    ensures cache.params[Key(PFrame, hash, FrameStartBlockName)] == s
    ensures Key(PFrame, hash, FrameEndBlockName) in cache.params
    ensures cache.params[Key(PFrame, hash, FrameEndBlockName)] == e
    ensures Key(PFrame, hash, ContentRelativeStartName) in cache.params
    ensures cache.params[Key(PFrame, hash, ContentRelativeStartName)] == c
  {
    ghost var k1, k2, k3 := Key(PInt, hash, TotalFrameCountName), Key(PFrame, hash, FrameStartBlockName),
      Key(PFrame, hash, FrameEndBlockName);
    t := MakeNext(cache, PInt, intStorage, hash, TotalFrameCountName, map[]);
    s := MakeNext(cache, PFrame, frameStorage, hash, FrameStartBlockName, map[k1 := t]);
    e := MakeNext(cache, PFrame, frameStorage, hash, FrameEndBlockName, map[k1 := t, k2 := s]);
    c := MakeNext(cache, PFrame, frameStorage, hash, ContentRelativeStartName, map[k1 := t, k2 := s, k3 := e]);
  }

  class BlockEditParams {
    var totalFrameCount: Parameter
    var frameStartBlock: Parameter
    var frameEndBlock: Parameter
    var contentRelativeStart: Parameter

    /** `BlockEditParams(map, hash)`: the four parameters from the cache
        under `hash` (an int and three frames), each emplaced into group "_"
        of the map under its name, so an entry already there is kept. */
    constructor (pm: ParamMap, cache: ParameterCache.ParameterCache, hash: string, intStorage: Storage, frameStorage: Storage)
      requires StorageFits(PInt, intStorage) && StorageFits(PFrame, frameStorage)
      modifies pm, cache, cache.params.Values
      ensures Key(PInt, hash, TotalFrameCountName) in cache.params
      ensures cache.params[Key(PInt, hash, TotalFrameCountName)] == totalFrameCount
      ensures Key(PFrame, hash, FrameStartBlockName) in cache.params
      ensures cache.params[Key(PFrame, hash, FrameStartBlockName)] == frameStartBlock
      ensures Key(PFrame, hash, FrameEndBlockName) in cache.params
      ensures cache.params[Key(PFrame, hash, FrameEndBlockName)] == frameEndBlock
      ensures Key(PFrame, hash, ContentRelativeStartName) in cache.params
      ensures cache.params[Key(PFrame, hash, ContentRelativeStartName)] == contentRelativeStart
      ensures pm.groups ==
        EmplaceIn(EmplaceIn(EmplaceIn(EmplaceIn(old(pm.groups),
          "_", totalFrameCount.name, totalFrameCount),
          "_", frameStartBlock.name, frameStartBlock),
          "_", frameEndBlock.name, frameEndBlock),
          "_", contentRelativeStart.name, contentRelativeStart)
    {
      var t, s, e, c := MakeFour(cache, hash, intStorage, frameStorage);
      EmplaceAll(pm, t, s, e, c);
      totalFrameCount, frameStartBlock, frameEndBlock, contentRelativeStart := t, s, e, c;
    }

    /** `translate(frame, clamp)` on the current parameter values: the
        content-relative start is a frame, the total an int. */
    function TranslateFrame(frame: Frame, clamp: bool): Frame
      reads this, contentRelativeStart, totalFrameCount
      requires contentRelativeStart.value.FrameAt?
      requires totalFrameCount.value.Num? && |totalFrameCount.value.cs| == 1
      requires clamp ==> 0 <= totalFrameCount.value.cs[0].Floor
    {
      Translate(frame, Frame(contentRelativeStart.value.index), totalFrameCount.value.cs[0].Floor, clamp)
    }
  }
}
