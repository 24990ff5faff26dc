// The colour-space registry (src/ocio/): the names of the colour spaces the
// loaded configuration offers, the five process-wide "current space" slots
// with their fall-back-to-space-0 setters, the per-node mirror of those slots
// as parameters, and the gating of the node's colour transform. Loading the
// configuration and building the shader are foreign calls.
module Ocio {
  import opened Wrappers

  // ---- OcioStatic: the configuration's space names ----

  /** The position of the first occurrence of `name`, or -1. */
  function FirstIndex(names: seq<string>, name: string): (r: int)
    ensures -1 <= r < |names|
    ensures r == -1 <==> name !in names
    ensures 0 <= r ==> names[r] == name && name !in names[..r]
  {
    if names == [] then -1
    else if names[0] == name then 0
    else
      var rest := FirstIndex(names[1..], name);
      assert names[1..][..rest + 1] == names[1..rest + 2] by {
        assert rest == -1 || rest + 2 <= |names|;
      }
      if rest == -1 then -1 else rest + 1
  }

  /** `index_from_space_name`: a counted scan that stops at the first match. */
  method IndexFromSpaceName(names: seq<string>, name: string) returns (r: int)
    ensures r == FirstIndex(names, name)
  {
    var i := 0;
    while i < |names|
      invariant 0 <= i <= |names|
      invariant name !in names[..i]
    {
      if names[i] == name {
        FirstIndexIs(names, name, i);
        return i;
      }
      assert names[..i + 1] == names[..i] + [names[i]];
      i := i + 1;
    }
    assert names[..i] == names;
    return -1;
  }

  lemma {:induction false} FirstIndexIs(names: seq<string>, name: string, i: nat)
    requires i < |names| && names[i] == name && name !in names[..i]
    ensures FirstIndex(names, name) == i
  {
    if i > 0 {
      assert names[1..][..i - 1] == names[1..i];
      FirstIndexIs(names[1..], name, i - 1);
    }
  }

  /** `space_name_at_index`: the name in range, an exception otherwise. */
  function SpaceNameAtIndex(names: seq<string>, i: int): (r: Result<string>)
    ensures r.Ok? <==> 0 <= i < |names|
    ensures r.Ok? ==> r.value == names[i]
    ensures r.Err? ==> r.msg == "Ocio index out of bounds."
  {
    if 0 <= i < |names| then Ok(names[i]) else Err("Ocio index out of bounds.")
  }

  /** Looking a present name up and reading the name back gives the name;
      for names without duplicates the other round trip holds too. */
  lemma SpaceNameRoundTrip(names: seq<string>, name: string, i: int)
    ensures name in names ==> SpaceNameAtIndex(names, FirstIndex(names, name)) == Ok(name)
    ensures name !in names ==> SpaceNameAtIndex(names, FirstIndex(names, name)).Err?
    ensures (forall a, b :: 0 <= a < b < |names| ==> names[a] != names[b]) && 0 <= i < |names| ==>
            FirstIndex(names, SpaceNameAtIndex(names, i).value) == i
  {
    if (forall a, b :: 0 <= a < b < |names| ==> names[a] != names[b]) && 0 <= i < |names| {
      FirstIndexIs(names, names[i], i);
    }
  }

  // ---- ocio_functional: the five current-space slots ----

  datatype Role = Working | DefaultInput | Display | Scan | Screenshot

  /** A slot: the space's name and its index in the configuration. */
  datatype Space = Space(name: string, index: int)

  const Unset: Space := Space("", -1)

  /** A map with an entry for each of the five roles. */
  predicate Covers<V>(m: map<Role, V>)
  {
    forall role: Role :: role in m
  }

  lemma CoversAll<V>(m: map<Role, V>)
    requires Working in m && DefaultInput in m && Display in m && Scan in m && Screenshot in m
    ensures Covers(m)
  {
    forall role: Role
      ensures role in m
    {
      match role
      case Working =>
      case DefaultInput =>
      case Display =>
      case Scan =>
      case Screenshot =>
    }
  }

  /** The slot `set_*_space(sp)` leaves and what it returns: the named
      space when the configuration has it, else space 0 and false; with no
      spaces at all the fallback read throws. */
  function SetOutcome(names: seq<string>, sp: string): (r: Result<(Space, bool)>)
    ensures r.Err? <==> sp !in names && names == []
    ensures r.Ok? && r.value.1 ==> sp in names && r.value.0 == Space(sp, FirstIndex(names, sp))
    ensures r.Ok? && !r.value.1 ==> sp !in names && r.value.0 == Space(names[0], 0)
  {
    var index := FirstIndex(names, sp);
    if index == -1 then
      match SpaceNameAtIndex(names, 0)
      case Ok(first) => Ok((Space(first, 0), false))
      case Err(msg) => Err(msg)
    else Ok((Space(sp, index), true))
  }

  class Spaces {
    var slots: map<Role, Space>

    /** Every slot starts unset: an empty name and index -1. */
    constructor ()
      ensures Covers(slots) && forall role :: slots[role] == Unset
    {
      var unset := map[Working := Unset, DefaultInput := Unset, Display := Unset,
                       Scan := Unset, Screenshot := Unset];
      CoversAll(unset);
      slots := unset;
    }

    function Slot(role: Role): Space
      reads this
      requires role in slots
    {
      slots[role]
    }

    /** `set_working_space` and its four siblings: each writes only its own
        slot, and nothing when it throws. */
    method Set(role: Role, names: seq<string>, sp: string) returns (r: Result<bool>)
      requires Covers(slots)
      modifies this
      ensures var o := SetOutcome(names, sp);
              (o.Ok? ==> r == Ok(o.value.1) && slots == old(slots)[role := o.value.0]) &&
              (o.Err? ==> r.Err? && slots == old(slots))
      ensures Covers(slots)
    {
      var index := IndexFromSpaceName(names, sp);
      if index == -1 {
        var first := SpaceNameAtIndex(names, 0);
        if first.Err? {
          return Err(first.msg);
        }
        slots := slots[role := Space(first.value, 0)];
        return Ok(false);
      }
      slots := slots[role := Space(sp, index)];
      r := Ok(true);
    }
  }

  /** After any sequence of setter calls against the same configuration,
      every slot that has been written names a space of the configuration
      at its own index. */
  predicate SlotsConsistent(names: seq<string>, slots: map<Role, Space>)
  {
    forall role :: role in slots && slots[role] != Unset ==>
      0 <= slots[role].index < |names| && names[slots[role].index] == slots[role].name
  }

  lemma SetKeepsConsistent(names: seq<string>, slots: map<Role, Space>, role: Role, sp: string)
    requires SlotsConsistent(names, slots)
    requires SetOutcome(names, sp).Ok?
    ensures SlotsConsistent(names, slots[role := SetOutcome(names, sp).value.0])
  {
  }

  // ---- make_ocio_param ----

  /** An integer "enum" parameter listing the configuration's spaces. */
  datatype EnumParam = EnumParam(name: string, tags: set<string>, value: int, max: int,
                                 defaultValue: int, enumNames: seq<string>)

  /** `make_ocio_param(node, name, default_index)`; the two-argument form
      passes 0. */
  function MakeOcioParam(name: string, names: seq<string>, defaultIndex: int): (r: EnumParam)
    ensures r.name == name && r.tags == {"enum"} && r.value == 0
    ensures r.max == |names| && r.defaultValue == defaultIndex && r.enumNames == names
  {
    EnumParam(name, {"enum"}, 0, |names|, defaultIndex, names)
  }

  // ---- OcioParams: the per-node mirror of the slots ----

  function ParamName(role: Role): (r: string)
    ensures |r| > 4 && r[..4] == "vkd_"
  {
    match role
    case Working => "vkd_ocio_working_space"
    case DefaultInput => "vkd_ocio_default_input_space"
    case Display => "vkd_ocio_display_space"
    case Scan => "vkd_ocio_scan_space"
    case Screenshot => "vkd_ocio_screenshot_space"
  }

  /** The roles whose parameter `update` overwrites, in the order it
      visits them: those whose value differs from the slot's index. */
  function Stale(values: map<Role, int>, slots: map<Role, Space>): (r: seq<Role>)
    requires Covers(values) && Covers(slots)
    ensures |r| <= 5
  {
    Differs(values, slots, Working) + Differs(values, slots, DefaultInput) + Differs(values, slots, Display) +
    Differs(values, slots, Scan) + Differs(values, slots, Screenshot)
  }

  function Differs(values: map<Role, int>, slots: map<Role, Space>, role: Role): (r: seq<Role>)
    requires role in values && role in slots
  {
    if values[role] != slots[role].index then [role] else []
  }

  /** A role is in the stale list exactly when its value differs from its
      slot's index. */
  lemma StaleMembers(values: map<Role, int>, slots: map<Role, Space>, role: Role)
    requires Covers(values) && Covers(slots)
    ensures role in Stale(values, slots) <==> values[role] != slots[role].index
  {
    match role
    case Working =>
    case DefaultInput =>
    case Display =>
    case Scan =>
    case Screenshot =>
  }

  /** Five per-role equalities make a whole-map statement. */
  lemma Synced(values: map<Role, int>, slots: map<Role, Space>)
    requires Covers(slots)
    requires Working in values && values[Working] == slots[Working].index
    requires DefaultInput in values && values[DefaultInput] == slots[DefaultInput].index
    requires Display in values && values[Display] == slots[Display].index
    requires Scan in values && values[Scan] == slots[Scan].index
    requires Screenshot in values && values[Screenshot] == slots[Screenshot].index
    ensures Covers(values) && forall role :: values[role] == slots[role].index
  {
    CoversAll(values);
    forall role: Role
      ensures values[role] == slots[role].index
    {
      match role
      case Working =>
      case DefaultInput =>
      case Display =>
      case Scan =>
      case Screenshot =>
    }
  }

  const Zeroed: map<Role, int> := map[Working := 0, DefaultInput := 0, Display := 0, Scan := 0, Screenshot := 0]

  class OcioParams {
    /** The five integer parameters' values. */
    var values: map<Role, int>
    /** The `set_force` calls made so far, by role. */
    var forced: seq<Role>

    /** The constructor makes the five parameters (value 0) and updates
        them, so each equals its slot's index. */
    constructor (spaces: Spaces)
      requires Covers(spaces.slots)
      ensures Covers(values) && forall role :: values[role] == spaces.slots[role].index
      ensures Covers(Zeroed) && forced == Stale(Zeroed, spaces.slots)
    {
      values := Zeroed;
      forced := [];
      CoversAll(Zeroed);
      new;
      Update(spaces);
    }

    /** The accessors (`working_space_index()` and the rest). */
    function Index(role: Role): int
      reads this
      requires role in values
    {
      values[role]
    }

    /** `update`: a parameter is written only when it differs from its
        slot; afterwards every accessor equals its slot's index. */
    method Update(spaces: Spaces)
      requires Covers(spaces.slots) && Covers(values)
      modifies this
      ensures Covers(values) && forall role :: values[role] == spaces.slots[role].index
      ensures forced == old(forced) + Stale(old(values), spaces.slots)
    {
      var slots := spaces.slots;
      var vals := values;
      var written: seq<Role> := [];
      ghost var v0 := values;
      if vals[Working] != slots[Working].index {
        vals, written := vals[Working := slots[Working].index], written + [Working];
      }
      assert written == Differs(v0, slots, Working);
      if vals[DefaultInput] != slots[DefaultInput].index {
        vals, written := vals[DefaultInput := slots[DefaultInput].index], written + [DefaultInput];
      }
      assert written == Differs(v0, slots, Working) + Differs(v0, slots, DefaultInput);
      if vals[Display] != slots[Display].index {
        vals, written := vals[Display := slots[Display].index], written + [Display];
      }
      assert written == Differs(v0, slots, Working) + Differs(v0, slots, DefaultInput) + Differs(v0, slots, Display);
      if vals[Scan] != slots[Scan].index {
        vals, written := vals[Scan := slots[Scan].index], written + [Scan];
      }
      assert written == Differs(v0, slots, Working) + Differs(v0, slots, DefaultInput) + Differs(v0, slots, Display) + Differs(v0, slots, Scan);
      if vals[Screenshot] != slots[Screenshot].index {
        vals, written := vals[Screenshot := slots[Screenshot].index], written + [Screenshot];
      }
      assert written == Differs(v0, slots, Working) + Differs(v0, slots, DefaultInput) + Differs(v0, slots, Display) + Differs(v0, slots, Scan) + Differs(v0, slots, Screenshot);
      Synced(vals, slots);
      values := vals;
      forced := forced + written;
    }
  }

  // ---- OcioNode ----

  datatype Direction = In | Out

  /** The slot whose index the node's space parameter defaults to. */
  function DefaultRole(d: Direction): Role
  {
    match d
    case In => DefaultInput
    case Out => Display
  }

  /** The (source, destination) spaces of the node's transform: an input
      node converts from its own space to the working space, an output node
      the other way round. */
  function TransformSpaces(d: Direction, own: int, working: int): (r: (int, int))
    ensures d == In ==> r.0 == own && r.1 == working
    ensures d == Out ==> r.0 == working && r.1 == own
  {
    match d
    case In => (own, working)
    case Out => (working, own)
  }

  class OcioNode {
    const direction: Direction
    var useOcio: bool
    var inSpace: EnumParam
    /** The built transform, as its (source, destination) indices. */
    var transform: Option<(int, int)>

    /** `init(node)`: the space parameter is named for the direction and
        defaults to the default-input slot for an input node and to the
        display slot for an output node; "use ocio" defaults to true. */
    constructor (d: Direction, spaces: Spaces, names: seq<string>)
      requires Covers(spaces.slots)
      ensures direction == d && useOcio && transform == None
      ensures inSpace == MakeOcioParam(if d == In then "input colour space" else "output colour space",
                                       names, spaces.slots[DefaultRole(d)].index)
    {
      direction := d;
      useOcio := true;
      var index := if d == In then spaces.slots[DefaultInput].index else spaces.slots[Display].index;
      inSpace := MakeOcioParam(if d == In then "input colour space" else "output colour space", names, index);
      transform := None;
    }

    /** `update`: with "use ocio" set, rebuild the transform (a failed build
        throws); otherwise keep whatever transform was built before. */
    method Update(own: int, working: int, built: bool) returns (r: Result<()>)
      modifies this
      ensures useOcio == old(useOcio) && inSpace == old(inSpace)
      ensures useOcio && built ==> r.Ok? && transform == Some(TransformSpaces(direction, own, working))
      ensures useOcio && !built ==> r.Err? && transform == old(transform)
      ensures !useOcio ==> r.Ok? && transform == old(transform)
    {
      if useOcio {
        if !built {
          return Err("OCIO Shader build failed");
        }
        transform := Some(TransformSpaces(direction, own, working));
      }
      r := Ok(());
    }

    /** `execute`: dispatch only when "use ocio" is set and a transform
        exists. */
    method Execute() returns (dispatched: Option<(int, int)>)
      ensures dispatched.Some? <==> useOcio && transform.Some?
      ensures dispatched.Some? ==> dispatched == transform
    {
      if useOcio && transform.Some? {
        dispatched := transform;
      } else {
        dispatched := None;
      }
    }
  }
}
