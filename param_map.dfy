// The node parameter map `ShaderParamMap`: parameter groups by name, each a
// map from parameter name to parameter. It is a map that callers hold by
// reference and change in place, so it is an object here.
module ParamMaps {
  import opened Parameters
  import ParameterCache

  /** The group `g` of `groups`, as `operator[]` finds or creates it. */
  function Group(groups: map<string, map<string, Parameter>>, g: string): map<string, Parameter>
  {
    if g in groups then groups[g] else map[]
  }

  /** `groups[g].emplace(name, p)`: creates the group if missing and inserts
      only when the name is new in it. */
  function EmplaceIn(groups: map<string, map<string, Parameter>>, g: string, name: string, p: Parameter)
    : (r: map<string, map<string, Parameter>>)
    ensures r.Keys == groups.Keys + {g}
    ensures forall h :: h in groups && h != g ==> r[h] == groups[h]
    ensures r[g] == ParameterCache.Emplace(Group(groups, g), name, p)
  {
    groups[g := ParameterCache.Emplace(Group(groups, g), name, p)]
  }

  class ParamMap {
    var groups: map<string, map<string, Parameter>>

    constructor ()
      ensures groups == map[]
    {
      groups := map[];
    }

    method Emplace(g: string, name: string, p: Parameter)
      modifies this
      ensures groups == EmplaceIn(old(groups), g, name, p)
    {
      groups := EmplaceIn(groups, g, name, p);
    }
  }
}
