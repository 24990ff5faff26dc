// How `Kernel::dispatch` (src/compute/kernel.cpp) splits a global work size
// into compute launches: one launch of whole work groups from the origin,
// then one launch with a partial pipeline for every non-empty combination of
// the axes whose size is not a multiple of the local group size.
module DispatchPlan {
  datatype Vec3 = Vec3(x: int, y: int, z: int)

  /** `int32_t` division and remainder, which truncate toward zero. */
  function TruncDiv(a: int, b: int): int
    requires b > 0
  {
    if a >= 0 then a / b else -((-a) / b)
  }

  function TruncMod(a: int, b: int): int
    requires b > 0
  {
    a - b * TruncDiv(a, b)
  }

  /** One axis of the split: whole groups, the leftover items, and where
      the leftover starts. */
  datatype Axis = Axis(trim: int, overflow: int, full: int)

  function SplitAxis(global: int, local: int): (r: Axis)
    requires local >= 1
  {
    var overflow := TruncMod(global, local);
    Axis(TruncDiv(global, local), overflow, global - overflow)
  }

  /** For a non-negative size, the whole groups and the leftover make up
      the size, and the leftover is shorter than one group. */
  lemma SplitAxisSpec(global: int, local: int)
    requires global >= 0 && local >= 1
    ensures var a := SplitAxis(global, local);
            a.trim * local + a.overflow == global && 0 <= a.overflow < local &&
            a.full == a.trim * local && a.trim >= 0
  {
  }

  /** For a negative size there is no leftover to launch. */
  lemma SplitAxisNegative(global: int, local: int)
    requires global < 0 && local >= 1
    ensures SplitAxis(global, local).overflow <= 0
  {
  }

  /** One `vkCmdDispatch`: the offset pushed as `vkd_offset`, the local
      group size of the bound pipeline, and the group count. */
  datatype Launch = Launch(offset: Vec3, size: Vec3, count: Vec3)

  /** The launches `dispatch` issues, in order, as written: the main launch,
      then the x, xy, xyz, xz, y, yz and z overflow launches that apply. The
      xyz launch pushes `full_x` as its y offset. */
  function Plan(global: Vec3, local: Vec3): (r: seq<Launch>)
    requires local.x >= 1 && local.y >= 1 && local.z >= 1
    ensures |r| >= 1 && r[0] == Launch(Vec3(0, 0, 0), local, Trims(global, local))
  {
    var ax, ay, az := SplitAxis(global.x, local.x), SplitAxis(global.y, local.y), SplitAxis(global.z, local.z);
    [Launch(Vec3(0, 0, 0), local, Vec3(ax.trim, ay.trim, az.trim))] +
    (if ax.overflow > 0 then
       [Launch(Vec3(ax.full, 0, 0), Vec3(ax.overflow, local.y, local.z), Vec3(1, ay.trim, az.trim))] +
       (if ay.overflow > 0 then
          [Launch(Vec3(ax.full, ay.full, 0), Vec3(ax.overflow, ay.overflow, local.z), Vec3(1, 1, az.trim))] +
          (if az.overflow > 0 then
             [Launch(Vec3(ax.full, ax.full, az.full), Vec3(ax.overflow, ay.overflow, az.overflow), Vec3(1, 1, 1))]
           else [])
        else []) +
       (if az.overflow > 0 then
          [Launch(Vec3(ax.full, 0, az.full), Vec3(ax.overflow, local.y, az.overflow), Vec3(1, ay.trim, 1))]
        else [])
     else []) +
    (if ay.overflow > 0 then
       [Launch(Vec3(0, ay.full, 0), Vec3(local.x, ay.overflow, local.z), Vec3(ax.trim, 1, az.trim))] +
       (if az.overflow > 0 then
          [Launch(Vec3(0, ay.full, az.full), Vec3(local.x, ay.overflow, az.overflow), Vec3(ax.trim, 1, 1))]
        else [])
     else []) +
    (if az.overflow > 0 then
       [Launch(Vec3(0, 0, az.full), Vec3(local.x, local.y, az.overflow), Vec3(ax.trim, ay.trim, 1))]
     else [])
  }

  function Trims(global: Vec3, local: Vec3): Vec3
    requires local.x >= 1 && local.y >= 1 && local.z >= 1
  {
    Vec3(SplitAxis(global.x, local.x).trim, SplitAxis(global.y, local.y).trim, SplitAxis(global.z, local.z).trim)
  }

  // ---- the intended plan: one launch per part of the box -------------------

  /** Which part of each axis a launch covers: the whole groups (false) or
      the leftover (true). */
  datatype Part = Part(x: bool, y: bool, z: bool)

  /** The launch covering one part: on each axis either the whole groups
      from 0 or one partial group from the leftover's start. */
  function Corner(global: Vec3, local: Vec3, p: Part): Launch
    requires local.x >= 1 && local.y >= 1 && local.z >= 1
  {
    var ax, ay, az := SplitAxis(global.x, local.x), SplitAxis(global.y, local.y), SplitAxis(global.z, local.z);
    Launch(Vec3(if p.x then ax.full else 0, if p.y then ay.full else 0, if p.z then az.full else 0),
           Vec3(if p.x then ax.overflow else local.x, if p.y then ay.overflow else local.y, if p.z then az.overflow else local.z),
           Vec3(if p.x then 1 else ax.trim, if p.y then 1 else ay.trim, if p.z then 1 else az.trim))
  }

  /** The parts `dispatch` visits, in its order, given which axes have a
      leftover. */
  function Parts(ox: bool, oy: bool, oz: bool): seq<Part>
  {
    [Part(false, false, false)] +
    (if ox then [Part(true, false, false)] + (if oy then [Part(true, true, false)] + (if oz then [Part(true, true, true)] else []) else [])
               + (if oz then [Part(true, false, true)] else [])
     else []) +
    (if oy then [Part(false, true, false)] + (if oz then [Part(false, true, true)] else []) else []) +
    (if oz then [Part(false, false, true)] else [])
  }

  /** The plan with the xyz launch at `(full_x, full_y, full_z)`. */
  function IntendedPlan(global: Vec3, local: Vec3): (r: seq<Launch>)
    requires local.x >= 1 && local.y >= 1 && local.z >= 1
  {
    var ps := Parts(SplitAxis(global.x, local.x).overflow > 0, SplitAxis(global.y, local.y).overflow > 0,
                    SplitAxis(global.z, local.z).overflow > 0);
    seq(|ps|, i requires 0 <= i < |ps| => Corner(global, local, ps[i]))
  }

  /** `Parts` lists exactly the parts whose leftover axes all have a
      leftover, each once. */
  lemma PartsSpec(ox: bool, oy: bool, oz: bool)
    ensures forall p :: p in Parts(ox, oy, oz) <==> ((p.x ==> ox) && (p.y ==> oy) && (p.z ==> oz))
    ensures forall i, j :: 0 <= i < j < |Parts(ox, oy, oz)| ==> Parts(ox, oy, oz)[i] != Parts(ox, oy, oz)[j]
  {
    var ps := Parts(ox, oy, oz);
    PartsListed(ox, oy, oz);
    forall p
      ensures p in ps <==> ((p.x ==> ox) && (p.y ==> oy) && (p.z ==> oz))
    {
      assert p in ps <==> p in Allowed(ox, oy, oz);
    }
  }

  /** The parts allowed by the leftovers, as a set. */
  function Allowed(ox: bool, oy: bool, oz: bool): set<Part>
  {
    set x: bool, y: bool, z: bool | (x ==> ox) && (y ==> oy) && (z ==> oz) :: Part(x, y, z)
  }

  lemma PartsListed(ox: bool, oy: bool, oz: bool)
    ensures forall p :: p in Parts(ox, oy, oz) <==> p in Allowed(ox, oy, oz)
    ensures forall i, j :: 0 <= i < j < |Parts(ox, oy, oz)| ==> Parts(ox, oy, oz)[i] != Parts(ox, oy, oz)[j]
  {
    var F, T := false, true;
    var ps := Parts(ox, oy, oz);
    var al := Allowed(ox, oy, oz);
    if ox && oy && oz {
      assert ps == [Part(F, F, F), Part(T, F, F), Part(T, T, F), Part(T, T, T), Part(T, F, T), Part(F, T, F), Part(F, T, T), Part(F, F, T)];
    } else if ox && oy {
      assert ps == [Part(F, F, F), Part(T, F, F), Part(T, T, F), Part(F, T, F)];
    } else if ox && oz {
      assert ps == [Part(F, F, F), Part(T, F, F), Part(T, F, T), Part(F, F, T)];
    } else if oy && oz {
      assert ps == [Part(F, F, F), Part(F, T, F), Part(F, T, T), Part(F, F, T)];
    } else if ox {
      assert ps == [Part(F, F, F), Part(T, F, F)];
    } else if oy {
      assert ps == [Part(F, F, F), Part(F, T, F)];
    } else if oz {
      assert ps == [Part(F, F, F), Part(F, F, T)];
    } else {
      assert ps == [Part(F, F, F)];
    }
  }

  predicate InBox(global: Vec3, q: Vec3)
  {
    0 <= q.x < global.x && 0 <= q.y < global.y && 0 <= q.z < global.z
  }

  /** The invocations a launch runs: offset plus group index times group
      size plus local index, on every axis. */
  predicate Covers(l: Launch, q: Vec3)
  {
    l.offset.x <= q.x < l.offset.x + l.count.x * l.size.x &&
    l.offset.y <= q.y < l.offset.y + l.count.y * l.size.y &&
    l.offset.z <= q.z < l.offset.z + l.count.z * l.size.z
  }

  /** The part of the box a point lies in. */
  function PartOf(global: Vec3, local: Vec3, q: Vec3): Part
    requires local.x >= 1 && local.y >= 1 && local.z >= 1
  {
    Part(q.x >= SplitAxis(global.x, local.x).full, q.y >= SplitAxis(global.y, local.y).full,
         q.z >= SplitAxis(global.z, local.z).full)
  }

  /** Along one axis, the whole groups cover [0, full) and the leftover
      covers [full, global). */
  lemma AxisCover(global: int, local: int, high: bool, q: int)
    requires global >= 0 && local >= 1
    ensures var a := SplitAxis(global, local);
            var off, size, count := (if high then a.full else 0), (if high then a.overflow else local), (if high then 1 else a.trim);
            (off <= q < off + count * size) <==> (0 <= q < global && (q >= a.full <==> high))
  {
    SplitAxisSpec(global, local);
  }

  /** A corner launch covers exactly the points of its part. */
  lemma CornerCovers(global: Vec3, local: Vec3, p: Part, q: Vec3)
    requires global.x >= 0 && global.y >= 0 && global.z >= 0
    requires local.x >= 1 && local.y >= 1 && local.z >= 1
    ensures Covers(Corner(global, local, p), q) <==> InBox(global, q) && PartOf(global, local, q) == p
  {
    AxisCover(global.x, local.x, p.x, q.x);
    AxisCover(global.y, local.y, p.y, q.y);
    AxisCover(global.z, local.z, p.z, q.z);
  }

  /** The intended plan covers the box exactly: every point of it is run by
      exactly one launch, and no launch runs a point outside it. */
  lemma IntendedPlanTiles(global: Vec3, local: Vec3, q: Vec3)
    requires global.x >= 0 && global.y >= 0 && global.z >= 0
    requires local.x >= 1 && local.y >= 1 && local.z >= 1
    ensures var plan := IntendedPlan(global, local);
            InBox(global, q) <==> exists i :: 0 <= i < |plan| && Covers(plan[i], q)
    ensures var plan := IntendedPlan(global, local);
            forall i, j :: 0 <= i < |plan| && 0 <= j < |plan| && Covers(plan[i], q) && Covers(plan[j], q) ==> i == j
  {
    var ox, oy, oz := SplitAxis(global.x, local.x).overflow > 0, SplitAxis(global.y, local.y).overflow > 0,
                      SplitAxis(global.z, local.z).overflow > 0;
    var ps := Parts(ox, oy, oz);
    var plan := IntendedPlan(global, local);
    PartsSpec(ox, oy, oz);
    forall i | 0 <= i < |plan|
      ensures Covers(plan[i], q) <==> InBox(global, q) && PartOf(global, local, q) == ps[i]
    {
      CornerCovers(global, local, ps[i], q);
    }
    if InBox(global, q) {
      var p := PartOf(global, local, q);
      SplitAxisSpec(global.x, local.x);
      SplitAxisSpec(global.y, local.y);
      SplitAxisSpec(global.z, local.z);
      assert p in ps;
      var i :| 0 <= i < |ps| && ps[i] == p;
      assert Covers(plan[i], q);
    }
  }

  /** The plan as written is the intended one whenever the xyz launch is not
      issued or `full_x` equals `full_y`. */
  lemma PlanIsIntendedUnlessXyz(global: Vec3, local: Vec3)
    requires local.x >= 1 && local.y >= 1 && local.z >= 1
    requires var ax, ay, az := SplitAxis(global.x, local.x), SplitAxis(global.y, local.y), SplitAxis(global.z, local.z);
             !(ax.overflow > 0 && ay.overflow > 0 && az.overflow > 0) || ax.full == ay.full
    ensures Plan(global, local) == IntendedPlan(global, local)
  {
    var ax, ay, az := SplitAxis(global.x, local.x), SplitAxis(global.y, local.y), SplitAxis(global.z, local.z);
    var ps := Parts(ax.overflow > 0, ay.overflow > 0, az.overflow > 0);
    var plan, intended := Plan(global, local), IntendedPlan(global, local);
    assert |plan| == |intended|;
    forall i | 0 <= i < |plan|
      ensures plan[i] == intended[i]
    {
      assert intended[i] == Corner(global, local, ps[i]);
    }
  }

  /** As written, a 20 x 40 x 3 dispatch with 16 x 16 x 2 groups never runs
      the invocation (16, 32, 2): the xyz launch starts at y = 16, not 32. */
  lemma PlanMissesCorner()
    ensures InBox(Vec3(20, 40, 3), Vec3(16, 32, 2))
    ensures forall i :: 0 <= i < |Plan(Vec3(20, 40, 3), Vec3(16, 16, 2))| ==>
              !Covers(Plan(Vec3(20, 40, 3), Vec3(16, 16, 2))[i], Vec3(16, 32, 2))
  {
    var plan := Plan(Vec3(20, 40, 3), Vec3(16, 16, 2));
    assert SplitAxis(20, 16) == Axis(1, 4, 16);
    assert SplitAxis(40, 16) == Axis(2, 8, 32);
    assert SplitAxis(3, 2) == Axis(1, 1, 2);
    assert plan == [Launch(Vec3(0, 0, 0), Vec3(16, 16, 2), Vec3(1, 2, 1)),
                    Launch(Vec3(16, 0, 0), Vec3(4, 16, 2), Vec3(1, 2, 1)),
                    Launch(Vec3(16, 32, 0), Vec3(4, 8, 2), Vec3(1, 1, 1)),
                    Launch(Vec3(16, 16, 2), Vec3(4, 8, 1), Vec3(1, 1, 1)),
                    Launch(Vec3(16, 0, 2), Vec3(4, 16, 1), Vec3(1, 2, 1)),
                    Launch(Vec3(0, 32, 0), Vec3(16, 8, 2), Vec3(1, 1, 1)),
                    Launch(Vec3(0, 32, 2), Vec3(16, 8, 1), Vec3(1, 1, 1)),
                    Launch(Vec3(0, 0, 2), Vec3(16, 16, 1), Vec3(1, 2, 1))];
  }
}
