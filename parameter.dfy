// Typed node parameters (src/parameter.hpp): a value of one of twelve types,
// a range that numeric values are clamped to, the bytes handed to a kernel's
// push constants (only their count is modelled), a name, an offset, tags and
// a read-and-reset "changed" flag.
//
// Numeric components are reals: float components are taken as exact, the
// integer types' components are integral reals within their 32-bit range.
module Parameters {
  datatype ParameterType =
    | PFloat | PInt | PUint | PVec2 | PVec4 | PIvec2 | PIvec4 | PUvec2 | PUvec4
    | PString | PFrame | PBool

  /** The enumerator's position, as `(int32_t)p` yields it. */
  function Ordinal(t: ParameterType): (r: nat)
    ensures r < 12
  {
    match t
    case PFloat => 0 case PInt => 1 case PUint => 2 case PVec2 => 3
    case PVec4 => 4 case PIvec2 => 5 case PIvec4 => 6 case PUvec2 => 7
    case PUvec4 => 8 case PString => 9 case PFrame => 10 case PBool => 11
  }

  lemma OrdinalInjective(a: ParameterType, b: ParameterType)
    ensures Ordinal(a) == Ordinal(b) <==> a == b
  {
  }

  /** `Frame`: a frame number, the value type of `p_frame` parameters. */
  datatype Frame = Frame(index: int)

  /** A parameter's value: numeric components, a string, a flag or a frame
      index. */
  datatype Value = Num(cs: seq<real>) | Text(s: string) | Flag(b: bool) | FrameAt(index: int)

  /** The types whose `set` clamps (every glm scalar and vector type). */
  predicate IsNumeric(t: ParameterType)
  {
    !(t.PString? || t.PFrame? || t.PBool?)
  }

  /** Components of a numeric type. */
  function Arity(t: ParameterType): nat
  {
    match t
    case PFloat => 1 case PInt => 1 case PUint => 1
    case PVec2 => 2 case PIvec2 => 2 case PUvec2 => 2
    case PVec4 => 4 case PIvec4 => 4 case PUvec4 => 4
    case PString => 0 case PFrame => 0 case PBool => 0
  }

  predicate Integral(x: real)
  {
    x.Floor as real == x
  }

  const Int32Min: int := -0x8000_0000
  const Int32Max: int := 0x7fff_ffff
  const UInt32Max: int := 0xffff_ffff

  /** Whether a component is representable in the component type of `t`. */
  predicate ComponentFits(t: ParameterType, x: real)
  {
    if t.PInt? || t.PIvec2? || t.PIvec4? then
      Integral(x) && Int32Min as real <= x <= Int32Max as real
    else if t.PUint? || t.PUvec2? || t.PUvec4? then
      Integral(x) && 0.0 <= x <= UInt32Max as real
    else
      true
  }

  /** `v` is a value of the C++ type behind `t`. */
  predicate WellTyped(t: ParameterType, v: Value)
  {
    match t
    case PString => v.Text?
    case PBool => v.Flag?
    case PFrame => v.FrameAt?
    case _ => v.Num? && |v.cs| == Arity(t) && forall i :: 0 <= i < |v.cs| ==> ComponentFits(t, v.cs[i])
  }

  /** `sizeof(P)`: 4 bytes per 32-bit component, 8 for a frame's 64-bit
      index, 1 for bool, and 32 for `std::string` (the size of the string
      object in the 64-bit libstdc++ ABI, not of its characters). */
  function SizeOf(t: ParameterType): nat
  {
    match t
    case PString => 32
    case PFrame => 8
    case PBool => 1
    case _ => 4 * Arity(t)
  }

  /** `glm::max(x, lo)` then `glm::min(_, hi)` on one component. */
  function Clamp(x: real, lo: real, hi: real): real
  {
    var m := if x < lo then lo else x;
    if hi < m then hi else m
  }

  /** Componentwise clamp of a numeric value; anything without matching
      components is left as it is. */
  function ClampValue(v: Value, lo: Value, hi: Value): Value
  {
    if v.Num? && lo.Num? && hi.Num? && |lo.cs| == |v.cs| && |hi.cs| == |v.cs| then
      Num(seq(|v.cs|, i requires 0 <= i < |v.cs| => Clamp(v.cs[i], lo.cs[i], hi.cs[i])))
    else
      v
  }

  /** `v` lies componentwise within [lo, hi]. */
  predicate InRange(v: Value, lo: Value, hi: Value)
  {
    v.Num? && lo.Num? && hi.Num? && |lo.cs| == |v.cs| && |hi.cs| == |v.cs| &&
    forall i :: 0 <= i < |v.cs| ==> lo.cs[i] <= v.cs[i] <= hi.cs[i]
  }

  /** `lo` is componentwise at most `hi`. */
  predicate Ordered(lo: Value, hi: Value)
  {
    lo.Num? && hi.Num? && |lo.cs| == |hi.cs| && forall i :: 0 <= i < |lo.cs| ==> lo.cs[i] <= hi.cs[i]
  }

  /** The clamp lands in [lo, hi] when lo <= hi, gives hi when lo > hi, and
      leaves a component that is already in range alone. */
  lemma ClampBounds(x: real, lo: real, hi: real)
    ensures lo <= hi ==> lo <= Clamp(x, lo, hi) <= hi
    ensures hi < lo ==> Clamp(x, lo, hi) == hi
    ensures lo <= x <= hi ==> Clamp(x, lo, hi) == x
    ensures Clamp(x, lo, hi) in {x, lo, hi}
  {
  }

  /** A clamped value with an ordered range is in range, and clamping it
      again changes nothing. */
  lemma ClampValueInRange(v: Value, lo: Value, hi: Value)
    requires v.Num? && Ordered(lo, hi) && |lo.cs| == |v.cs|
    ensures InRange(ClampValue(v, lo, hi), lo, hi)
    ensures ClampValue(ClampValue(v, lo, hi), lo, hi) == ClampValue(v, lo, hi)
  {
    var c := ClampValue(v, lo, hi);
    forall i | 0 <= i < |v.cs|
      ensures lo.cs[i] <= c.cs[i] <= hi.cs[i]
    {
      ClampBounds(v.cs[i], lo.cs[i], hi.cs[i]);
    }
    forall i | 0 <= i < |v.cs|
      ensures ClampValue(c, lo, hi).cs[i] == c.cs[i]
    {
      ClampBounds(c.cs[i], lo.cs[i], hi.cs[i]);
    }
  }

  /** A value already in range is its own clamp. */
  lemma ClampValueFixesInRange(v: Value, lo: Value, hi: Value)
    requires InRange(v, lo, hi)
    ensures ClampValue(v, lo, hi) == v
  {
    forall i | 0 <= i < |v.cs|
      ensures ClampValue(v, lo, hi).cs[i] == v.cs[i]
    {
      ClampBounds(v.cs[i], lo.cs[i], hi.cs[i]);
    }
  }

  /** Clamping a value of type `t` to a range of type `t` gives a value of
      type `t`: every component is one of the three inputs. */
  lemma ClampValueWellTyped(t: ParameterType, v: Value, lo: Value, hi: Value)
    requires WellTyped(t, v) && WellTyped(t, lo) && WellTyped(t, hi)
    ensures WellTyped(t, ClampValue(v, lo, hi))
  {
    if v.Num? {
      forall i | 0 <= i < |v.cs|
        ensures ComponentFits(t, ClampValue(v, lo, hi).cs[i])
      {
        ClampBounds(v.cs[i], lo.cs[i], hi.cs[i]);
      }
    }
  }

  function Zeros(n: nat): seq<real> { seq(n, _ => 0.0) }
  function Fill(n: nat, x: real): seq<real> { seq(n, _ => x) }

  /** What a parameter's fields hold before the constructor assigns them:
      a default-constructed C++ object leaves `_value`, `_min` and `_max` of
      arithmetic types uninitialised, so they are inputs of the model. */
  datatype Storage = Storage(value: Value, lo: Value, hi: Value)

  predicate StorageFits(t: ParameterType, st: Storage)
  {
    WellTyped(t, st.value) && WellTyped(t, st.lo) && WellTyped(t, st.hi)
  }

  /** The value the constructor passes to `set`. */
  function DefaultValue(t: ParameterType, st: Storage): Value
  {
    if t.PString? then Text("placeholder")
    else if IsNumeric(t) then Num(Zeros(Arity(t)))
    else st.value
  }

  /** The minimum the constructor assigns: -1 for float, -127 for int, 0 for
      the unsigned and vector types; a string's minimum is the empty string. */
  function DefaultMin(t: ParameterType, st: Storage): Value
  {
    match t
    case PFloat => Num([-1.0])
    case PInt => Num([-127.0])
    case PString => Text("")
    case PFrame => st.lo
    case PBool => st.lo
    case _ => Num(Zeros(Arity(t)))
  }

  /** The maximum the constructor assigns: 1 for float and the float vectors,
      128 for int, 255 for uint and the integer vectors. */
  function DefaultMax(t: ParameterType, st: Storage): Value
  {
    match t
    case PFloat => Num([1.0])
    case PInt => Num([128.0])
    case PVec2 => Num(Fill(2, 1.0))
    case PVec4 => Num(Fill(4, 1.0))
    case PString => Text("")
    case PFrame => st.hi
    case PBool => st.hi
    case _ => Num(Fill(Arity(t), 255.0))
  }

  /** The constructor's defaults are values of the type, the numeric range is
      ordered, and the default value lies inside it, so `set` after `min` and
      `max` would store the default unchanged. */
  lemma DefaultsConsistent(t: ParameterType, st: Storage)
    requires StorageFits(t, st)
    ensures WellTyped(t, DefaultValue(t, st))
    ensures WellTyped(t, DefaultMin(t, st)) && WellTyped(t, DefaultMax(t, st))
    ensures IsNumeric(t) ==> Ordered(DefaultMin(t, st), DefaultMax(t, st))
    ensures IsNumeric(t) ==> InRange(DefaultValue(t, st), DefaultMin(t, st), DefaultMax(t, st))
    ensures ClampValue(DefaultValue(t, st), DefaultMin(t, st), DefaultMax(t, st)) == DefaultValue(t, st)
  {
    if IsNumeric(t) {
      ClampValueFixesInRange(DefaultValue(t, st), DefaultMin(t, st), DefaultMax(t, st));
    }
  }

  /** The value the constructor stores. It calls `set(0)` while `_min` and
      `_max` still hold the storage's contents, so a numeric default is
      clamped against those; the range is assigned only afterwards. */
  function InitialValue(t: ParameterType, st: Storage): (r: Value)
    requires StorageFits(t, st)
    ensures WellTyped(t, r)
    ensures !IsNumeric(t) ==> r == DefaultValue(t, st)
  {
    DefaultsConsistent(t, st);
    if IsNumeric(t) then
      ClampValueWellTyped(t, DefaultValue(t, st), st.lo, st.hi);
      ClampValue(DefaultValue(t, st), st.lo, st.hi)
    else DefaultValue(t, st)
  }

  /** When the storage happens to hold a range around the default, the
      constructor stores the default. */
  lemma InitialValueIsDefaultWhenBracketed(t: ParameterType, st: Storage)
    requires StorageFits(t, st)
    requires IsNumeric(t) ==> InRange(DefaultValue(t, st), st.lo, st.hi)
    ensures InitialValue(t, st) == DefaultValue(t, st)
  {
    if IsNumeric(t) {
      ClampValueFixesInRange(DefaultValue(t, st), st.lo, st.hi);
    }
  }

  /** Whatever it is, a numeric initial value lies in the (ordered) range the
      storage held, not necessarily in the range assigned afterwards. */
  lemma InitialValueInStorageRange(t: ParameterType, st: Storage)
    requires StorageFits(t, st) && IsNumeric(t) && Ordered(st.lo, st.hi)
    ensures InRange(InitialValue(t, st), st.lo, st.hi)
  {
    ClampValueInRange(DefaultValue(t, st), st.lo, st.hi);
  }

  /** For an int parameter whose storage holds 200 and 300 the stored value
      is 200, outside the assigned range [-127, 128]. */
  lemma InitialValueCanEscapeRange()
    ensures InitialValue(PInt, Storage(Num([0.0]), Num([200.0]), Num([300.0]))) == Num([200.0])
    ensures !InRange(Num([200.0]), DefaultMin(PInt, Storage(Num([0.0]), Num([200.0]), Num([300.0]))),
                     DefaultMax(PInt, Storage(Num([0.0]), Num([200.0]), Num([300.0]))))
  {
    assert ClampValue(Num([0.0]), Num([200.0]), Num([300.0])).cs[0] == 200.0;
  }

  class Parameter {
    var ptype: ParameterType
    var value: Value
    var lo: Value
    var hi: Value
    /** `_data.size()`: the bytes last copied by `set`. */
    var size: nat
    var offset: nat
    var name: string
    var tags: set<string>
    var changed: bool

    /** Value and range are values of the parameter's type. */
    predicate Valid()
      reads this
    {
      WellTyped(ptype, value) && WellTyped(ptype, lo) && WellTyped(ptype, hi)
    }

    /** `Parameter<P>()`: numeric types `set` their zero and then assign the
        range, strings `set("placeholder")`, and frame and bool (which have no
        branch) keep what the storage held and no data. A new parameter
        reports changed. */
    constructor (t: ParameterType, st: Storage)
      requires StorageFits(t, st)
      ensures ptype == t && Valid()
      ensures value == InitialValue(t, st)
      ensures lo == DefaultMin(t, st) && hi == DefaultMax(t, st)
      ensures size == (if IsNumeric(t) || t.PString? then SizeOf(t) else 0)
      ensures changed && tags == {} && name == "" && offset == 0
    {
      DefaultsConsistent(t, st);
      ptype := t;
      value := st.value;
      lo, hi := st.lo, st.hi;
      size := 0;
      changed := true;
      tags, name, offset := {}, "", 0;
      new;
      if IsNumeric(t) {
        Set(DefaultValue(t, st));
        SetMin(DefaultMin(t, st));
        SetMax(DefaultMax(t, st));
      } else if t.PString? {
        lo, hi := Text(""), Text("");
        Set(DefaultValue(t, st));
      }
    }


    /** `set(p)`: numeric values are clamped to the current range, then the
        value is stored, the data resized to `sizeof(P)` and the parameter
        marked changed. */
    method Set(v: Value)
      requires Valid() && WellTyped(ptype, v)
      modifies this
      ensures Valid()
      ensures value == (if IsNumeric(ptype) then ClampValue(v, lo, hi) else v)
      ensures size == SizeOf(ptype) && changed
      ensures ptype == old(ptype) && lo == old(lo) && hi == old(hi)
      ensures offset == old(offset) && name == old(name) && tags == old(tags)
    {
      var p := v;
      if IsNumeric(ptype) {
        ClampValueWellTyped(ptype, v, lo, hi);
        p := ClampValue(p, lo, hi);
      }
      value := p;
      size := SizeOf(ptype);
      changed := true;
    }

    /** `set_force(p)`: stores the value without clamping, sizes the data and
        marks the parameter changed. */
    method SetForce(v: Value)
      requires Valid() && WellTyped(ptype, v)
      modifies this
      ensures Valid() && value == v
      ensures size == SizeOf(ptype) && changed
      ensures ptype == old(ptype) && lo == old(lo) && hi == old(hi)
      ensures offset == old(offset) && name == old(name) && tags == old(tags)
    {
      value := v;
      size := SizeOf(ptype);
      changed := true;
    }

    /** `changed()`: returns the flag and clears it. */
    method Changed() returns (r: bool)
      modifies this
      ensures r == old(changed) && !changed
      ensures value == old(value) && lo == old(lo) && hi == old(hi) && size == old(size)
      ensures ptype == old(ptype) && offset == old(offset) && name == old(name) && tags == old(tags)
    {
      r := changed;
      changed := false;
    }

    /** `set_changed()`, used by the cached `make_param`: raises the flag. */
    method MarkChanged()
      modifies this
      ensures changed
      ensures value == old(value) && lo == old(lo) && hi == old(hi) && size == old(size)
      ensures ptype == old(ptype) && offset == old(offset) && name == old(name) && tags == old(tags)
    {
      changed := true;
    }

    /** `min(m)` and `max(m)`: assign the range without re-clamping. */
    method SetMin(m: Value)
      requires Valid() && WellTyped(ptype, m)
      modifies this
      ensures Valid() && lo == m
      ensures value == old(value) && hi == old(hi) && size == old(size) && changed == old(changed)
      ensures ptype == old(ptype) && offset == old(offset) && name == old(name) && tags == old(tags)
    {
      lo := m;
    }

    method SetMax(m: Value)
      requires Valid() && WellTyped(ptype, m)
      modifies this
      ensures Valid() && hi == m
      ensures value == old(value) && lo == old(lo) && size == old(size) && changed == old(changed)
      ensures ptype == old(ptype) && offset == old(offset) && name == old(name) && tags == old(tags)
    {
      hi := m;
    }

    /** `tag(t)`: set insertion. */
    method Tag(t: string)
      modifies this
      ensures tags == old(tags) + {t}
      ensures value == old(value) && lo == old(lo) && hi == old(hi) && size == old(size)
      ensures ptype == old(ptype) && offset == old(offset) && name == old(name) && changed == old(changed)
    {
      tags := tags + {t};
    }

    /** `tags(ts)`, used by the cached `make_param`: replaces the tag set. */
    method SetTags(ts: set<string>)
      modifies this
      ensures tags == ts
      ensures value == old(value) && lo == old(lo) && hi == old(hi) && size == old(size)
      ensures ptype == old(ptype) && offset == old(offset) && name == old(name) && changed == old(changed)
    {
      tags := ts;
    }

    method SetName(n: string)
      modifies this
      ensures name == n
      ensures value == old(value) && lo == old(lo) && hi == old(hi) && size == old(size)
      ensures ptype == old(ptype) && offset == old(offset) && tags == old(tags) && changed == old(changed)
    {
      name := n;
    }

    method SetOffset(off: nat)
      modifies this
      ensures offset == off
      ensures value == old(value) && lo == old(lo) && hi == old(hi) && size == old(size)
      ensures ptype == old(ptype) && name == old(name) && tags == old(tags) && changed == old(changed)
    {
      offset := off;
    }
  }

  /** Tagging is idempotent: a tag set already holding `t` is unchanged. */
  lemma TagIdempotent(tags: set<string>, t: string)
    ensures (tags + {t}) + {t} == tags + {t}
    ensures t in tags ==> tags + {t} == tags
  {
  }

  /** `make_param<T>(name, offset)`: a new parameter of type `t` with the
      given name and offset. */
  method MakeParam(t: ParameterType, st: Storage, name: string, offset: nat) returns (p: Parameter)
    requires StorageFits(t, st)
    ensures fresh(p) && p.Valid() && p.ptype == t
    ensures p.value == InitialValue(t, st) && p.lo == DefaultMin(t, st) && p.hi == DefaultMax(t, st)
    ensures p.name == name && p.offset == offset && p.tags == {} && p.changed
  {
    p := new Parameter(t, st);
    p.SetName(name);
    p.SetOffset(offset);
  }


  /** Two reads of the flag in a row: the first returns what it was, the
      second returns false. */
  method ChangedTwice(p: Parameter) returns (first: bool, second: bool)
    modifies p
    ensures first == old(p.changed) && !second && !p.changed
    ensures p.value == old(p.value)
  {
    first := p.Changed();
    second := p.Changed();
  }
}
