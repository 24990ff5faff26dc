// Host-side image storage (src/host_cache.cpp): images keyed by their
// 64-bit hash value, and a least-recently-used queue that only `get`
// maintains.
module HostCache {
  import opened Wrappers

  const Int32Max: int := 0x7fff_ffff

  /** A host image: its byte count, dimensions, channels and channel size. */
  class StaticHostImage {
    var size: nat
    var dim: (int, int)
    var channels: int
    var elementSize: int

    /** The defaults: no data, 0 x 0, no channels. */
    constructor ()
      ensures size == 0 && dim == (0, 0) && channels == 0 && elementSize == 0
    {
      size, dim, channels, elementSize := 0, (0, 0), 0, 0;
    }

    /** `create_image`: records the channel layout and sizes the data to
        width * height * channels * element size (the product is computed in
        32 bits, so it must not exceed the int32 range). */
    method CreateImage(width: nat, height: nat, channels: nat, elementSize: nat)
      requires width * height * channels * elementSize <= Int32Max
      modifies this
      ensures size == width * height * channels * elementSize
      ensures dim == (width, height) && this.channels == channels && this.elementSize == elementSize
    {
      this.channels := channels;
      this.elementSize := elementSize;
      size := width * height * channels * elementSize;
      dim := (width, height);
    }
  }

  /** `StaticHostImage::make`: a fresh image created with the given layout. */
  method Make(width: nat, height: nat, channels: nat, elementSize: nat) returns (img: StaticHostImage)
    requires width * height * channels * elementSize <= Int32Max
    ensures fresh(img)
    ensures img.size == width * height * channels * elementSize && img.dim == (width, height)
    ensures img.channels == channels && img.elementSize == elementSize
  {
    img := new StaticHostImage();
    img.CreateImage(width, height, channels, elementSize);
  }

  /** `std::remove` followed by `erase`: the queue without any copy of `x`,
      the rest in order. */
  function Without<T(==)>(s: seq<T>, x: T): seq<T>
    decreases |s|
  {
    if s == [] then []
    else if s[0] == x then Without(s[1..], x)
    else [s[0]] + Without(s[1..], x)
  }

  /** Removing drops every copy of `x` and keeps every other element as
      often as it occurred. */
  lemma {:induction false} WithoutSpec<T>(s: seq<T>, x: T)
    ensures forall y :: multiset(Without(s, x))[y] == if y == x then 0 else multiset(s)[y]
    ensures x !in Without(s, x)
    decreases |s|
  {
    if s != [] {
      WithoutSpec(s[1..], x);
      assert s == [s[0]] + s[1..];
      assert multiset(s) == multiset([s[0]]) + multiset(s[1..]);
      if s[0] != x {
        assert Without(s, x) == [s[0]] + Without(s[1..], x);
        assert multiset(Without(s, x)) == multiset([s[0]]) + multiset(Without(s[1..], x));
      }
      forall y
        ensures multiset(Without(s, x))[y] == if y == x then 0 else multiset(s)[y]
      {
        assert multiset(s)[y] == multiset([s[0]])[y] + multiset(s[1..])[y];
      }
    }
  }

  /** The queue after a hit on `x`: every earlier copy removed and `x`
      pushed at the back. */
  function Touch<T(==)>(lru: seq<T>, x: T): seq<T>
  {
    Without(lru, x) + [x]
  }

  /** After a hit the key is in the queue exactly once, at the back, and
      every other key keeps its multiplicity. */
  lemma TouchSpec<T>(lru: seq<T>, x: T)
    ensures |Touch(lru, x)| > 0 && Touch(lru, x)[|Touch(lru, x)| - 1] == x
    ensures multiset(Touch(lru, x))[x] == 1
    ensures forall y :: y != x ==> multiset(Touch(lru, x))[y] == multiset(lru)[y]
  {
    WithoutSpec(lru, x);
    var w := Without(lru, x);
    assert multiset(Touch(lru, x)) == multiset(w) + multiset{x};
    assert multiset(w)[x] == 0;
    forall y | y != x
      ensures multiset(Touch(lru, x))[y] == multiset(lru)[y]
    {
      assert multiset(w)[y] == multiset(lru)[y];
    }
  }

  /** Touching twice is touching once. */
  lemma TouchIdempotent<T>(lru: seq<T>, x: T)
    ensures Touch(Touch(lru, x), x) == Touch(lru, x)
  {
    WithoutSpec(lru, x);
    WithoutAppendSelf(Without(lru, x), x);
    WithoutAbsent(Without(lru, x), x);
  }

  lemma {:induction false} WithoutAppendSelf<T>(s: seq<T>, x: T)
    ensures Without(s + [x], x) == Without(s, x)
    decreases |s|
  {
    if s == [] {
      assert [x][1..] == [];
    } else {
      assert (s + [x])[1..] == s[1..] + [x];
      WithoutAppendSelf(s[1..], x);
    }
  }

  lemma {:induction false} WithoutAbsent<T>(s: seq<T>, x: T)
    requires x !in s
    ensures Without(s, x) == s
    decreases |s|
  {
    if s != [] {
      assert x !in s[1..];
      WithoutAbsent(s[1..], x);
      assert s == [s[0]] + s[1..];
    }
  }

  class HostCache {
    var cache: map<bv64, StaticHostImage>
    var leastRecentUsed: seq<bv64>

    constructor ()
      ensures cache == map[] && leastRecentUsed == []
    {
      cache, leastRecentUsed := map[], [];
    }

    /** `add`: replaces any image stored under the key and reports whether
        the key was new; the queue is untouched. */
    method Add(name: bv64, image: StaticHostImage) returns (wasNew: bool)
      modifies this
      ensures wasNew <==> name !in old(cache)
      ensures cache == old(cache)[name := image]
      ensures leastRecentUsed == old(leastRecentUsed)
    {
      wasNew := true;
      if name in cache {
        wasNew := false;
      }
      cache := cache - {name};
      cache := cache[name := image];
    }

    /** `remove`: erases the key and reports whether it was there; the queue
        is untouched. */
    method Remove(name: bv64) returns (r: bool)
      modifies this
      ensures r <==> name in old(cache)
      ensures cache == old(cache) - {name}
      ensures leastRecentUsed == old(leastRecentUsed)
    {
      if name !in cache {
        return false;
      }
      cache := cache - {name};
      return true;
    }

    /** `get`: on a hit the image, with the key moved to the back of the
        queue; on a miss null, with the queue unchanged. */
    method Get(name: bv64) returns (r: Option<StaticHostImage>)
      modifies this
      ensures r.Some? <==> name in cache
      ensures r.Some? ==> r.value == cache[name] && leastRecentUsed == Touch(old(leastRecentUsed), name)
      ensures r.None? ==> leastRecentUsed == old(leastRecentUsed)
      ensures cache == old(cache)
    {
      if name in cache {
        leastRecentUsed := Without(leastRecentUsed, name);
        leastRecentUsed := leastRecentUsed + [name];
        return Some(cache[name]);
      }
      return None;
    }

    /** `trim` does nothing. */
    method Trim()
      modifies this
      ensures cache == old(cache) && leastRecentUsed == old(leastRecentUsed)
    {
    }
  }
}
