// The 64-bit hash accumulator (src/hash.hpp). `std::hash` of each argument
// is an input: the model folds already-hashed 64-bit values.
module Hash {
  const Golden: bv64 := 0x9e3779b9

  /** What `hash_combine` adds to the argument's hash: the constant and two
      shifts of the seed. */
  function Offset(seed: bv64): bv64
  {
    Golden + (seed << 6) + (seed >> 2)
  }

  /** One `hash_combine` step on `seed` with the argument's hash `h`; every
      operation wraps modulo 2^64, so the sum is grouped as the argument's
      hash plus the offset. */
  function Combine(seed: bv64, h: bv64): bv64
  {
    seed ^ (h + Offset(seed))
  }

  /** `hash_combine(seed, args...)`: the step applied to each argument from
      left to right. */
  function Fold(seed: bv64, hs: seq<bv64>): bv64
    decreases |hs|
  {
    if hs == [] then seed else Fold(Combine(seed, hs[0]), hs[1..])
  }

  /** Folding a concatenation folds the second part into the result of the
      first: `Hash(a...) + b` is `Hash(a..., b)`. */
  lemma {:induction false} FoldAppend(seed: bv64, a: seq<bv64>, b: seq<bv64>)
    ensures Fold(seed, a + b) == Fold(Fold(seed, a), b)
    decreases |a|
  {
    if a == [] {
      assert a + b == b;
    } else {
      assert (a + b)[1..] == a[1..] + b;
      FoldAppend(Combine(seed, a[0]), a[1..], b);
    }
  }

  class Hash {
    var value: bv64

    /** `Hash()`: the value 0. */
    constructor ()
      ensures value == 0
    {
      value := 0;
    }

    /** `Hash(args...)`: the fold of the arguments from 0. */
    constructor Of(hs: seq<bv64>)
      ensures value == Fold(0, hs)
    {
      value := Fold(0, hs);
    }

    /** `operator+`: folds one more argument into this hash. */
    method Plus(h: bv64)
      modifies this
      ensures value == Combine(old(value), h)
    {
      value := Combine(value, h);
    }

    /** `operator==` compares the stored values. */
    function Equals(other: Hash): (r: bool)
      reads this, other
      ensures r <==> value == other.value
    {
      value == other.value
    }

    /** `operator<` compares the stored values as unsigned 64-bit numbers. */
    function Less(other: Hash): bool
      reads this, other
    {
      Below(value, other.value)
    }
  }

  /** Unsigned comparison of 64-bit words. */
  predicate Below(x: bv64, y: bv64)
  {
    x as int < y as int
  }

  lemma ToIntInjective(b: bv64)
    ensures (b as int) as bv64 == b
  {
  }

  /** Unsigned comparison is irreflexive, transitive and asymmetric. */
  lemma BelowIsStrictOrder(x: bv64, y: bv64, z: bv64)
    ensures !Below(x, x)
    ensures Below(x, y) && Below(y, z) ==> Below(x, z)
    ensures Below(x, y) ==> !Below(y, x) && x != y
  {
  }

  /** Unsigned comparison is total: words it does not order are equal. */
  lemma BelowIsTotal(x: bv64, y: bv64)
    ensures Below(x, y) || Below(y, x) || x == y
  {
    ToIntInjective(x);
    ToIntInjective(y);
  }

  /** Because `==` and `<` look only at the stored value, `<` is a strict
      total order on hashes, with `==` as its equivalence. */
  lemma LessIsStrictTotalOrder(a: Hash, b: Hash, c: Hash)
    ensures !a.Less(a)
    ensures a.Less(b) && b.Less(c) ==> a.Less(c)
    ensures a.Less(b) || b.Less(a) || a.Equals(b)
    ensures a.Less(b) ==> !b.Less(a) && !a.Equals(b)
  {
    BelowIsStrictOrder(a.value, b.value, c.value);
    BelowIsTotal(a.value, b.value);
  }

  /** Adding one argument to `Hash(a...)` gives `Hash(a..., h)`. */
  method PlusExtendsFold(a: seq<bv64>, h: bv64) returns (r: bv64)
    ensures r == Fold(0, a + [h])
  {
    var x := new Hash.Of(a);
    x.Plus(h);
    r := x.value;
    FoldAppend(0, a, [h]);
  }
}
