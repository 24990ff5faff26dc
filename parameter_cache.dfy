// The process-wide parameter cache (src/parameter.cpp): parameters stored
// under a string key made of the decimal type ordinal followed by a name.
// The lazily created singleton is one `ParameterCache` object; the mutex is
// not modelled.
module ParameterCache {
  import opened Wrappers
  import opened Strings
  import opened Parameters

  /** `make_hash(p, name)`: `std::to_string((int32_t)p) + name`. */
  function MakeHash(t: ParameterType, name: string): string
  {
    NatToString(Ordinal(t)) + name
  }

  /** `std::map::emplace`: inserts only when the key is absent. */
  function Emplace<V>(m: map<string, V>, k: string, v: V): (r: map<string, V>)
    ensures k in r && r.Keys == m.Keys + {k}
    ensures forall j :: j in m ==> r[j] == m[j]
    ensures k !in m ==> r[k] == v
  {
    if k in m then m else m[k := v]
  }

  /** Removing a key after an emplace leaves exactly what removing it from
      the original leaves, and emplacing an existing key changes nothing. */
  lemma EmplaceThenRemove<V>(m: map<string, V>, k: string, v: V)
    ensures Emplace(m, k, v) - {k} == m - {k}
    ensures k in m ==> Emplace(m, k, v) == m
  {
  }

  /** When the name does not start with a digit the key determines both the
      type and the name: the ordinal is the leading run of digits. */
  lemma MakeHashInjective(a: ParameterType, x: string, b: ParameterType, y: string)
    requires x == [] || !IsDigit(x[0])
    requires y == [] || !IsDigit(y[0])
    ensures MakeHash(a, x) == MakeHash(b, y) <==> a == b && x == y
  {
    if MakeHash(a, x) == MakeHash(b, y) {
      var s, t := NatToString(Ordinal(a)), NatToString(Ordinal(b));
      NatToStringShape(Ordinal(a));
      NatToStringShape(Ordinal(b));
      DigitPrefixEqual(s, x, t, y);
      NatToStringInjective(Ordinal(a), Ordinal(b));
      OrdinalInjective(a, b);
      assert x == (s + x)[|s|..];
      assert y == (t + y)[|t|..];
    }
  }

  /** Two strings of digits each followed by a part that does not start with
      a digit are equal only if the digit parts are. */
  lemma {:induction false} DigitPrefixEqual(s: string, x: string, t: string, y: string)
    requires AllDigits(s) && AllDigits(t)
    requires x == [] || !IsDigit(x[0])
    requires y == [] || !IsDigit(y[0])
    requires s + x == t + y
    ensures s == t
    decreases |s|
  {
    if s != [] && t != [] {
      assert (s + x)[0] == (t + y)[0];
      assert (s + x)[1..] == s[1..] + x;
      assert (t + y)[1..] == t[1..] + y;
      DigitPrefixEqual(s[1..], x, t[1..], y);
    } else if s == [] && t != [] {
      HeadOfAppend(t, y);
      assert false;
    } else if s != [] && t == [] {
      HeadOfAppend(s, x);
      assert false;
    }
  }

  lemma HeadOfAppend(u: string, v: string)
    requires u != []
    ensures (u + v)[0] == u[0]
  {
  }

  /** Without that condition keys collide: type 1 (int) with a name starting
      "0" and type 10 (frame) with the rest of that name share a key. */
  lemma MakeHashCollides(rest: string)
    ensures MakeHash(PInt, "0" + rest) == MakeHash(PFrame, rest)
  {
    assert NatToString(1) == "1";
    assert NatToString(10) == "10";
  }

  class ParameterCache {
    var params: map<string, Parameter>

    /** The cache starts empty. */
    constructor ()
      ensures params == map[]
    {
      params := map[];
    }

    /** `add(p, name, param)`: emplace under the key, so an existing entry is
        never overwritten. */
    method Add(t: ParameterType, name: string, param: Parameter)
      modifies this
      ensures params == Emplace(old(params), MakeHash(t, name), param)
    {
      var key := MakeHash(t, name);
      if key !in params {
        params := params[key := param];
      }
    }

    /** `has(p, name)`: whether the key is present. */
    method Has(t: ParameterType, name: string) returns (r: bool)
      ensures r <==> MakeHash(t, name) in params
    {
      r := MakeHash(t, name) in params;
    }

    /** `get(p, name)`: the stored parameter; `at` throws on a missing key,
        which is `None` here. */
    method Get(t: ParameterType, name: string) returns (r: Option<Parameter>)
      ensures r.Some? <==> MakeHash(t, name) in params
      ensures r.Some? ==> r.value == params[MakeHash(t, name)]
    {
      var key := MakeHash(t, name);
      if key in params {
        r := Some(params[key]);
      } else {
        r := None;
      }
    }

    /** `remove(p, name)`: erases the key and reports whether it was there;
        every other entry is kept. */
    method Remove(t: ParameterType, name: string) returns (r: bool)
      modifies this
      ensures r <==> MakeHash(t, name) in old(params)
      ensures params == old(params) - {MakeHash(t, name)}
    {
      var key := MakeHash(t, name);
      r := key in params;
      params := params - {key};
    }
  }
}
