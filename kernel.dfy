// `Kernel` (src/compute/kernel.cpp, src/compute/kernel.hpp): a compute
// shader with its parameters, arguments, cached partial pipelines and the
// commands it records. Recorded commands are appended to `log`; pipeline and
// descriptor objects are represented by the local sizes and arguments they
// were built from.
module Kernels {
  import opened Wrappers
  import opened Parameters
  import opened Shaders
  import opened DispatchPlan

  /** The pipelines a kernel keeps: the full one, and one partial pipeline
      per combination of axes whose group size differs from the local size
      (`_overflow_x_pipeline` is `Partial(true, false, false)`, and so on up
      to `_overflow_xyz_pipeline`). */
  datatype PipelineKind = Full | Partial(x: bool, y: bool, z: bool)

  datatype Vec4 = Vec4(x: int, y: int, z: int, w: int)

  /** A bound argument: a buffer or an image handle. */
  datatype Arg = BufferArg(buffer: int) | ImageArg(image: int)

  /** What the kernel records into a command buffer. */
  datatype Command =
    | Bind(kind: PipelineKind, sizes: Vec3)
    | Push(offset: nat, size: nat, value: Value)
    | DispatchGroups(count: Vec3)
    | Barrier(buffers: nat, images: nat)

  // ---- parameters from push-constant members --------------------------------------

  /** Only members whose name starts with neither "_" nor "vkd_" become
      public parameters. */
  predicate IsPublic(name: string)
  {
    !(|name| >= 1 && name[..1] == "_") && !(|name| >= 4 && name[..4] == "vkd_")
  }

  /** The types `init` makes a parameter for; any other member (a bool, or
      one left untyped) gets a null parameter. */
  predicate HasParamCase(t: Option<ParameterType>)
  {
    t.Some? && IsNumeric(t.value)
  }

  /** The member names. */
  function Names(pairs: seq<TypePair>): set<string>
  {
    if pairs == [] then {} else Names(pairs[..|pairs| - 1]) + {pairs[|pairs| - 1].name}
  }

  /** The position of the first pair with this name. */
  function FirstNamed(pairs: seq<TypePair>, name: string): (i: nat)
    requires name in Names(pairs)
    ensures i < |pairs| && pairs[i].name == name && name !in Names(pairs[..i])
  {
    var init := pairs[..|pairs| - 1];
    if name in Names(init) then
      var i := FirstNamed(init, name);
      assert init[..i] == pairs[..i];
      i
    else
      assert init == pairs[..|pairs| - 1];
      |pairs| - 1
  }

  /** `_push_constant_size`: the size of the last range, 0 without one. */
  function LastRangeSize(ranges: seq<PushRange>): nat
  {
    if ranges == [] then 0 else ranges[|ranges| - 1].size
  }

  /** `int32_t` wrap-around of a sum. */
  function Wrap32(x: int): (r: int)
    ensures Int32Min <= r <= Int32Max
    ensures Int32Min <= x <= Int32Max ==> r == x
  {
    (x + 0x8000_0000) % 0x1_0000_0000 - 0x8000_0000
  }

  /** The value an `ivec4` push carries. */
  function IVec4Value(v: Vec4): (r: Value)
    ensures WellTyped(PIvec4, r)
  {
    var r := Num([Wrap32(v.x) as real, Wrap32(v.y) as real, Wrap32(v.z) as real, Wrap32(v.w) as real]);
    assert forall i :: 0 <= i < 4 ==> ComponentFits(PIvec4, r.cs[i]);
    r
  }

  // ---- the commands of a dispatch, as a function ----------------------------------

  /** What a parameter contributes to a push. */
  datatype ParamView = ParamView(ptype: ParameterType, value: Value, size: nat, offset: nat)

  /** The commands recorded so far, the pipeline cache, and the exception
      that ended the recording, if any. */
  datatype Outcome = Outcome(cmds: seq<Command>, pipes: map<PipelineKind, Vec3>, err: Option<string>)

  /** `set_push_arg`: nothing with an empty push-constant block; a range
      past the block or an empty parameter throws; otherwise one push. */
  function PushStep(o: Outcome, blockSize: nat, offset: nat, size: nat, value: Value): (r: Outcome)
    ensures r.pipes == o.pipes
  {
    if o.err.Some? || blockSize == 0 then o
    else if size + offset > blockSize then o.(err := Some("Param out of range for push constant"))
    else if size == 0 then o.(err := Some("Push constant size zero."))
    else o.(cmds := o.cmds + [Push(offset, size, value)])
  }

  /** The parameter loop of `dispatch`; a null parameter cannot be pushed. */
  function ParamPushes(o: Outcome, views: seq<Option<ParamView>>, blockSize: nat): (r: Outcome)
    ensures r.pipes == o.pipes
  {
    if views == [] then o
    else
      var prev := ParamPushes(o, views[..|views| - 1], blockSize);
      match views[|views| - 1]
      case None => if prev.err.Some? then prev else prev.(err := Some("null parameter"))
      case Some(p) => PushStep(prev, blockSize, p.offset, p.size, p.value)
  }

  /** How `vkd_offset` is declared: absent, null, or a parameter of some
      type at some offset. */
  datatype OffsetParam = NoOffsetParam | NullOffsetParam | OffsetAt(ptype: ParameterType, offset: nat)

  /** `_push_execution_offset`: the base offset plus the launch offset is
      force-set on `vkd_offset` and pushed; without that parameter nothing
      happens. */
  function OffsetPush(o: Outcome, op: OffsetParam, blockSize: nat, v: Vec4): (r: Outcome)
    ensures r.pipes == o.pipes
  {
    if o.err.Some? then o
    else
      match op
      case NoOffsetParam => o
      case NullOffsetParam => o.(err := Some("null parameter"))
      case OffsetAt(t, off) =>
        if t != PIvec4 then o.(err := Some("parameter type mismatch"))
        else PushStep(o, blockSize, off, SizeOf(PIvec4), IVec4Value(v))
  }

  /** The pipeline `_dispatch_overflow` picks for a group size: by which
      axes differ from the kernel's local sizes, none when no axis does. */
  function KindFor(local: Vec3, size: Vec3): Option<PipelineKind>
  {
    var x, y, z := size.x != local.x, size.y != local.y, size.z != local.z;
    if x || y || z then Some(Partial(x, y, z)) else None
  }

  /** The local sizes a cached pipeline was built with; `{0,0,0}` before
      its first build. */
  function CachedSizes(pipes: map<PipelineKind, Vec3>, k: PipelineKind): Vec3
  {
    if k in pipes then pipes[k] else Vec3(0, 0, 0)
  }

  predicate PositiveSizes(v: Vec3)
  {
    v.x >= 1 && v.y >= 1 && v.z >= 1
  }

  /** `_dispatch_overflow(size, count)`: rebuilds the chosen pipeline only
      when its sizes differ from `size` (a non-positive size throws), then
      binds it and dispatches `count` groups. */
  function OverflowStep(o: Outcome, local: Vec3, size: Vec3, count: Vec3): Outcome
  {
    if o.err.Some? then o
    else
      match KindFor(local, size)
      case None => o
      case Some(k) =>
        if CachedSizes(o.pipes, k) == size then Outcome(o.cmds + [Bind(k, size), DispatchGroups(count)], o.pipes, None)
        else if !PositiveSizes(size) then o.(err := Some("Bad pipeline local size"))
        else Outcome(o.cmds + [Bind(k, size), DispatchGroups(count)], o.pipes[k := size], None)
  }

  /** The overflow launches, each after pushing its offset. */
  function OverflowLaunches(o: Outcome, op: OffsetParam, blockSize: nat, base: Vec4, local: Vec3, plan: seq<Launch>): Outcome
  {
    if plan == [] then o
    else
      LaunchStep(OverflowLaunches(o, op, blockSize, base, local, plan[..|plan| - 1]), op, blockSize, base, local,
                 plan[|plan| - 1])
  }

  /** One overflow launch: its offset is pushed, then `_dispatch_overflow`. */
  function LaunchStep(o: Outcome, op: OffsetParam, blockSize: nat, base: Vec4, local: Vec3, l: Launch): Outcome
  {
    OverflowStep(OffsetPush(o, op, blockSize, Shifted(base, l.offset)), local, l.size, l.count)
  }

  /** `_constants.offset + offset`, before the `int32_t` wrap. */
  function Shifted4(base: Vec4, off: Vec4): Vec4
  {
    Vec4(base.x + off.x, base.y + off.y, base.z + off.z, base.w + off.w)
  }

  function Shifted(base: Vec4, off: Vec3): Vec4
  {
    Shifted4(base, Vec4(off.x, off.y, off.z, 0))
  }

  // Each step records the same commands whatever was recorded before it:
  // putting a prefix in front of the earlier commands puts it in front of
  // the result.

  /** The same outcome after a prefix of earlier commands. */
  function Behind(prior: seq<Command>, o: Outcome): Outcome
  {
    o.(cmds := prior + o.cmds)
  }

  lemma PushStepBehind(prior: seq<Command>, o: Outcome, blockSize: nat, offset: nat, size: nat, value: Value)
    ensures PushStep(Behind(prior, o), blockSize, offset, size, value) == Behind(prior, PushStep(o, blockSize, offset, size, value))
  {
    if o.err.None? && blockSize != 0 && size + offset <= blockSize && size != 0 {
      assert prior + (o.cmds + [Push(offset, size, value)]) == (prior + o.cmds) + [Push(offset, size, value)];
    }
  }

  lemma OffsetPushBehind(prior: seq<Command>, o: Outcome, op: OffsetParam, blockSize: nat, v: Vec4)
    ensures OffsetPush(Behind(prior, o), op, blockSize, v) == Behind(prior, OffsetPush(o, op, blockSize, v))
  {
    if op.OffsetAt? && op.ptype == PIvec4 {
      PushStepBehind(prior, o, blockSize, op.offset, SizeOf(PIvec4), IVec4Value(v));
    }
  }

  lemma OverflowStepBehind(prior: seq<Command>, o: Outcome, local: Vec3, size: Vec3, count: Vec3)
    ensures OverflowStep(Behind(prior, o), local, size, count) == Behind(prior, OverflowStep(o, local, size, count))
  {
    if o.err.None? && KindFor(local, size).Some? {
      var k := KindFor(local, size).value;
      assert prior + (o.cmds + [Bind(k, size), DispatchGroups(count)]) == (prior + o.cmds) + [Bind(k, size), DispatchGroups(count)];
    }
  }

  lemma LaunchStepBehind(prior: seq<Command>, o: Outcome, op: OffsetParam, blockSize: nat, base: Vec4, local: Vec3, l: Launch)
    ensures LaunchStep(Behind(prior, o), op, blockSize, base, local, l) == Behind(prior, LaunchStep(o, op, blockSize, base, local, l))
  {
    var v := Shifted(base, l.offset);
    OffsetPushBehind(prior, o, op, blockSize, v);
    OverflowStepBehind(prior, OffsetPush(o, op, blockSize, v), local, l.size, l.count);
  }

  lemma {:induction false} ParamPushesBehind(prior: seq<Command>, o: Outcome, views: seq<Option<ParamView>>, blockSize: nat)
    ensures ParamPushes(Behind(prior, o), views, blockSize) == Behind(prior, ParamPushes(o, views, blockSize))
  {
    if views != [] {
      var init := views[..|views| - 1];
      ParamPushesBehind(prior, o, init, blockSize);
      var prev := ParamPushes(o, init, blockSize);
      if views[|views| - 1].Some? {
        var p := views[|views| - 1].value;
        PushStepBehind(prior, prev, blockSize, p.offset, p.size, p.value);
      }
    }
  }

  lemma {:induction false} OverflowLaunchesBehind(prior: seq<Command>, o: Outcome, op: OffsetParam, blockSize: nat, base: Vec4,
                                                  local: Vec3, ls: seq<Launch>)
    ensures OverflowLaunches(Behind(prior, o), op, blockSize, base, local, ls)
         == Behind(prior, OverflowLaunches(o, op, blockSize, base, local, ls))
  {
    if ls != [] {
      var init := ls[..|ls| - 1];
      OverflowLaunchesBehind(prior, o, op, blockSize, base, local, init);
      LaunchStepBehind(prior, OverflowLaunches(o, op, blockSize, base, local, init), op, blockSize, base, local, ls[|ls| - 1]);
    }
  }

  /** One more overflow launch. */
  lemma OverflowLaunchesNext(o: Outcome, op: OffsetParam, blockSize: nat, base: Vec4, local: Vec3, ls: seq<Launch>, n: nat)
    requires n < |ls|
    ensures OverflowLaunches(o, op, blockSize, base, local, ls[..n + 1])
         == LaunchStep(OverflowLaunches(o, op, blockSize, base, local, ls[..n]), op, blockSize, base, local, ls[n])
  {
    assert ls[..n + 1][..n] == ls[..n];
  }

  /** After an exception the overflow launches record nothing more. */
  lemma {:induction false} OverflowLaunchesStuck(o: Outcome, op: OffsetParam, blockSize: nat, base: Vec4, local: Vec3,
                                                 ls: seq<Launch>)
    requires o.err.Some?
    ensures OverflowLaunches(o, op, blockSize, base, local, ls) == o
  {
    if ls != [] {
      OverflowLaunchesStuck(o, op, blockSize, base, local, ls[..|ls| - 1]);
    }
  }

  /** After an exception the parameter pushes record nothing more. */
  lemma {:induction false} ParamPushesStuck(o: Outcome, views: seq<Option<ParamView>>, blockSize: nat, i: nat)
    requires i <= |views| && ParamPushes(o, views[..i], blockSize).err.Some?
    ensures ParamPushes(o, views, blockSize) == ParamPushes(o, views[..i], blockSize)
    decreases |views| - i
  {
    if i < |views| {
      assert views[..i + 1][..i] == views[..i];
      ParamPushesStuck(o, views, blockSize, i + 1);
    } else {
      assert views[..i] == views;
    }
  }

  /** Overflow launches: after an exception in the i-th, the rest record
      nothing. */
  lemma {:induction false} OverflowLaunchesStuckAt(o: Outcome, op: OffsetParam, blockSize: nat, base: Vec4, local: Vec3,
                                                   ls: seq<Launch>, i: nat)
    requires i <= |ls| && OverflowLaunches(o, op, blockSize, base, local, ls[..i]).err.Some?
    ensures OverflowLaunches(o, op, blockSize, base, local, ls) == OverflowLaunches(o, op, blockSize, base, local, ls[..i])
    decreases |ls| - i
  {
    if i < |ls| {
      assert ls[..i + 1][..i] == ls[..i];
      OverflowLaunchesStuckAt(o, op, blockSize, base, local, ls, i + 1);
    } else {
      assert ls[..i] == ls;
    }
  }

  /** Everything `dispatch` records for a given launch list: the full
      pipeline, every parameter, the zero offset and the first launch, the
      remaining launches as overflow launches, and the closing barrier over
      the arguments. */
  function DispatchWith(prior: seq<Command>, local: Vec3, pipes: map<PipelineKind, Vec3>, views: seq<Option<ParamView>>, op: OffsetParam,
                        blockSize: nat, base: Vec4, args: map<int, Arg>, plan: seq<Launch>): Outcome
    requires |plan| >= 1
  {
    var o1 := ParamPushes(Outcome(prior + [Bind(Full, local)], pipes, None), views, blockSize);
    var o2 := OffsetPush(o1, op, blockSize, base);
    var o3 := if o2.err.Some? then o2 else o2.(cmds := o2.cmds + [DispatchGroups(plan[0].count)]);
    var o4 := OverflowLaunches(o3, op, blockSize, base, local, plan[1..]);
    if o4.err.Some? then o4 else o4.(cmds := o4.cmds + [BarrierOver(args)])
  }

  /** `dispatch(buf, x, y, z)`: the launches are those of the plan. */
  function DispatchSpec(prior: seq<Command>, local: Vec3, pipes: map<PipelineKind, Vec3>, views: seq<Option<ParamView>>, op: OffsetParam,
                        blockSize: nat, base: Vec4, args: map<int, Arg>, global: Vec3): Outcome
    requires PositiveSizes(local)
  {
    DispatchWith(prior, local, pipes, views, op, blockSize, base, args, Plan(global, local))
  }

  /** A dispatch whose parameter pushes or base offset push throw records
      nothing after them. */
  lemma DispatchWithStuck(prior: seq<Command>, local: Vec3, pipes: map<PipelineKind, Vec3>, views: seq<Option<ParamView>>,
                          op: OffsetParam, blockSize: nat, base: Vec4, args: map<int, Arg>, plan: seq<Launch>)
    requires |plan| >= 1
    requires OffsetPush(ParamPushes(Outcome(prior + [Bind(Full, local)], pipes, None), views, blockSize), op, blockSize, base).err.Some?
    ensures DispatchWith(prior, local, pipes, views, op, blockSize, base, args, plan)
         == OffsetPush(ParamPushes(Outcome(prior + [Bind(Full, local)], pipes, None), views, blockSize), op, blockSize, base)
  {
    var o2 := OffsetPush(ParamPushes(Outcome(prior + [Bind(Full, local)], pipes, None), views, blockSize), op, blockSize, base);
    OverflowLaunchesStuck(o2, op, blockSize, base, local, plan[1..]);
  }

  /** The closing barrier: one entry per buffer argument and one per image
      argument. */
  function BarrierOver(args: map<int, Arg>): Command
  {
    Barrier(|set k | k in args && args[k].BufferArg?|, |set k | k in args && args[k].ImageArg?|)
  }

  // ---- properties of the recorded dispatch ----------------------------------------

  /** The group counts of the recorded dispatches, in order. */
  function Dispatched(cmds: seq<Command>): seq<Vec3>
  {
    if cmds == [] then []
    else Dispatched(cmds[..|cmds| - 1]) + (if cmds[|cmds| - 1].DispatchGroups? then [cmds[|cmds| - 1].count] else [])
  }

  function Counts(plan: seq<Launch>): seq<Vec3>
  {
    seq(|plan|, i requires 0 <= i < |plan| => plan[i].count)
  }

  lemma DispatchedAppend(a: seq<Command>, b: seq<Command>)
    ensures Dispatched(a + b) == Dispatched(a) + Dispatched(b)
    decreases |b|
  {
    if b == [] {
      assert a + b == a;
    } else {
      assert (a + b)[..|a + b| - 1] == a + b[..|b| - 1];
      DispatchedAppend(a, b[..|b| - 1]);
    }
  }

  lemma DispatchedOne(c: Command)
    ensures Dispatched([c]) == if c.DispatchGroups? then [c.count] else []
  {
    assert [c][..0] == [];
  }

  /** Every launch uses a positive group size that differs from the local
      size on some axis. */
  predicate AllPartial(local: Vec3, ls: seq<Launch>)
  {
    forall i :: 0 <= i < |ls| ==> KindFor(local, ls[i].size).Some? && PositiveSizes(ls[i].size)
  }

  /** Every overflow launch of the plan uses a partial group on some axis,
      so `_dispatch_overflow` never skips it. */
  lemma OverflowLaunchPartial(global: Vec3, local: Vec3, i: nat)
    requires PositiveSizes(local) && 1 <= i < |Plan(global, local)|
    ensures KindFor(local, Plan(global, local)[i].size).Some?
    ensures PositiveSizes(Plan(global, local)[i].size)
  {
    if global.x >= 0 { SplitAxisSpec(global.x, local.x); } else { SplitAxisNegative(global.x, local.x); }
    if global.y >= 0 { SplitAxisSpec(global.y, local.y); } else { SplitAxisNegative(global.y, local.y); }
    if global.z >= 0 { SplitAxisSpec(global.z, local.z); } else { SplitAxisNegative(global.z, local.z); }
  }

  lemma PlanPartial(global: Vec3, local: Vec3)
    requires PositiveSizes(local)
    ensures AllPartial(local, Plan(global, local)[1..])
  {
    var plan := Plan(global, local);
    forall i | 0 <= i < |plan[1..]|
      ensures KindFor(local, plan[1..][i].size).Some? && PositiveSizes(plan[1..][i].size)
    {
      OverflowLaunchPartial(global, local, i + 1);
    }
  }

  /** Pushing offsets never records a dispatch. */
  lemma OffsetPushDispatches(o: Outcome, op: OffsetParam, blockSize: nat, v: Vec4)
    ensures Dispatched(OffsetPush(o, op, blockSize, v).cmds) == Dispatched(o.cmds)
    ensures OffsetPush(o, op, blockSize, v).err.None? ==> o.err.None?
  {
    var r := OffsetPush(o, op, blockSize, v);
    if r.cmds != o.cmds {
      assert exists c :: r.cmds == o.cmds + [c] && c.Push?;
      var c :| r.cmds == o.cmds + [c] && c.Push?;
      DispatchedAppend(o.cmds, [c]);
      assert Dispatched([c]) == [] by {
        assert [c][..0] == [];
      }
    }
  }

  /** An overflow step with a partial group that raises nothing dispatches
      its count. */
  lemma OverflowStepDispatch(o: Outcome, local: Vec3, size: Vec3, count: Vec3)
    requires KindFor(local, size).Some? && PositiveSizes(size)
    requires OverflowStep(o, local, size, count).err.None?
    ensures o.err.None?
    ensures Dispatched(OverflowStep(o, local, size, count).cmds) == Dispatched(o.cmds) + [count]
  {
    var k := KindFor(local, size).value;
    DispatchedAppend(o.cmds, [Bind(k, size), DispatchGroups(count)]);
    DispatchedOne(Bind(k, size));
    DispatchedOne(DispatchGroups(count));
    DispatchedAppend([Bind(k, size)], [DispatchGroups(count)]);
    assert [Bind(k, size)] + [DispatchGroups(count)] == [Bind(k, size), DispatchGroups(count)];
  }

  /** When overflow launches of partial groups run without an exception,
      they dispatch exactly their group counts, in order, and they start
      from an outcome without an exception. */
  lemma {:induction false} OverflowLaunchesDispatch(o: Outcome, op: OffsetParam, blockSize: nat, base: Vec4, local: Vec3,
                                                    ls: seq<Launch>)
    requires AllPartial(local, ls)
    requires OverflowLaunches(o, op, blockSize, base, local, ls).err.None?
    ensures o.err.None?
    ensures Dispatched(OverflowLaunches(o, op, blockSize, base, local, ls).cmds) == Dispatched(o.cmds) + Counts(ls)
  {
    if ls == [] {
      assert Counts(ls) == [];
    } else {
      var init := ls[..|ls| - 1];
      var l := ls[|ls| - 1];
      var prev := OverflowLaunches(o, op, blockSize, base, local, init);
      var pushed := OffsetPush(prev, op, blockSize, Shifted(base, l.offset));
      assert LaunchStep(prev, op, blockSize, base, local, l).err.None?;
      assert pushed.err.None? && Dispatched(LaunchStep(prev, op, blockSize, base, local, l).cmds) == Dispatched(pushed.cmds) + [l.count] by {
        OverflowStepDispatch(pushed, local, l.size, l.count);
      }
      assert prev.err.None? && Dispatched(pushed.cmds) == Dispatched(prev.cmds) by {
        OffsetPushDispatches(prev, op, blockSize, Shifted(base, l.offset));
      }
      assert o.err.None? && Dispatched(prev.cmds) == Dispatched(o.cmds) + Counts(init) by {
        assert AllPartial(local, init);
        OverflowLaunchesDispatch(o, op, blockSize, base, local, init);
      }
      assert Counts(ls) == Counts(init) + [l.count];
    }
  }

  /** The parameter pushes record no dispatch. */
  lemma {:induction false} ParamPushesNoDispatch(o: Outcome, views: seq<Option<ParamView>>, blockSize: nat)
    ensures Dispatched(ParamPushes(o, views, blockSize).cmds) == Dispatched(o.cmds)
  {
    if views != [] {
      var prev := ParamPushes(o, views[..|views| - 1], blockSize);
      ParamPushesNoDispatch(o, views[..|views| - 1], blockSize);
      var r := ParamPushes(o, views, blockSize);
      if r.cmds != prev.cmds {
        var p := views[|views| - 1].value;
        var c := Push(p.offset, p.size, p.value);
        assert r.cmds == prev.cmds + [c];
        DispatchedAppend(prev.cmds, [c]);
        assert Dispatched([c]) == [] by {
          assert [c][..0] == [];
        }
      }
    }
  }

  /** Binding the full pipeline and pushing the parameters and the base
      offset dispatch nothing. */
  lemma PushesDispatchNothing(prior: seq<Command>, local: Vec3, pipes: map<PipelineKind, Vec3>, views: seq<Option<ParamView>>,
                              op: OffsetParam, blockSize: nat, base: Vec4)
    ensures Dispatched(OffsetPush(ParamPushes(Outcome(prior + [Bind(Full, local)], pipes, None), views, blockSize), op,
                                  blockSize, base).cmds) == Dispatched(prior)
  {
    var start := Outcome(prior + [Bind(Full, local)], pipes, None);
    ParamPushesNoDispatch(start, views, blockSize);
    OffsetPushDispatches(ParamPushes(start, views, blockSize), op, blockSize, base);
    DispatchedAppend(prior, [Bind(Full, local)]);
    DispatchedOne(Bind(Full, local));
  }

  lemma CountsFirst(plan: seq<Launch>)
    requires |plan| >= 1
    ensures Counts(plan) == [plan[0].count] + Counts(plan[1..])
  {
  }

  /** A dispatch over launches whose overflow part is all partial groups
      dispatches exactly the launches' group counts, after whatever was
      dispatched before, when it completes. */
  lemma DispatchWithFollows(prior: seq<Command>, local: Vec3, pipes: map<PipelineKind, Vec3>, views: seq<Option<ParamView>>,
                            op: OffsetParam, blockSize: nat, base: Vec4, args: map<int, Arg>, plan: seq<Launch>)
    requires |plan| >= 1 && AllPartial(local, plan[1..])
    requires DispatchWith(prior, local, pipes, views, op, blockSize, base, args, plan).err.None?
    ensures Dispatched(DispatchWith(prior, local, pipes, views, op, blockSize, base, args, plan).cmds)
         == Dispatched(prior) + Counts(plan)
  {
    var o2 := OffsetPush(ParamPushes(Outcome(prior + [Bind(Full, local)], pipes, None), views, blockSize), op, blockSize, base);
    var before, first, rest := Dispatched(prior), [plan[0].count], Counts(plan[1..]);
    var o3 := if o2.err.Some? then o2 else o2.(cmds := o2.cmds + [DispatchGroups(plan[0].count)]);
    var o4 := OverflowLaunches(o3, op, blockSize, base, local, plan[1..]);
    assert o4.err.None?;
    assert o3.err.None? && Dispatched(o4.cmds) == Dispatched(o3.cmds) + rest by {
      OverflowLaunchesDispatch(o3, op, blockSize, base, local, plan[1..]);
    }
    assert Dispatched(o3.cmds) == before + first by {
      PushesDispatchNothing(prior, local, pipes, views, op, blockSize, base);
      DispatchedAppend(o2.cmds, [DispatchGroups(plan[0].count)]);
      DispatchedOne(DispatchGroups(plan[0].count));
    }
    var bar := BarrierOver(args);
    assert Dispatched(o4.cmds + [bar]) == Dispatched(o4.cmds) by {
      DispatchedAppend(o4.cmds, [bar]);
      DispatchedOne(bar);
    }
    assert Counts(plan) == first + rest by {
      CountsFirst(plan);
    }
    assert before + first + rest == before + (first + rest);
  }

  /** A dispatch that completes launches exactly the plan: the main launch's
      groups first, then every overflow launch's, in the plan's order. */
  lemma DispatchFollowsPlan(prior: seq<Command>, local: Vec3, pipes: map<PipelineKind, Vec3>, views: seq<Option<ParamView>>,
                            op: OffsetParam, blockSize: nat, base: Vec4, args: map<int, Arg>, global: Vec3)
    requires PositiveSizes(local)
    requires DispatchSpec(prior, local, pipes, views, op, blockSize, base, args, global).err.None?
    ensures Dispatched(DispatchSpec(prior, local, pipes, views, op, blockSize, base, args, global).cmds)
         == Dispatched(prior) + Counts(Plan(global, local))
  {
    PlanPartial(global, local);
    DispatchWithFollows(prior, local, pipes, views, op, blockSize, base, args, Plan(global, local));
  }

  /** A dispatch only appends to the command buffer: it records the same
      commands, with the same cache and exception, whatever the buffer held
      before. */
  lemma DispatchWithBehind(prior: seq<Command>, local: Vec3, pipes: map<PipelineKind, Vec3>, views: seq<Option<ParamView>>,
                           op: OffsetParam, blockSize: nat, base: Vec4, args: map<int, Arg>, plan: seq<Launch>)
    requires |plan| >= 1
    ensures DispatchWith(prior, local, pipes, views, op, blockSize, base, args, plan)
         == Behind(prior, DispatchWith([], local, pipes, views, op, blockSize, base, args, plan))
  {
    var e0 := Outcome([Bind(Full, local)], pipes, None);
    assert [] + [Bind(Full, local)] == [Bind(Full, local)];
    ParamPushesBehind(prior, e0, views, blockSize);
    var q1 := ParamPushes(e0, views, blockSize);
    OffsetPushBehind(prior, q1, op, blockSize, base);
    var q2 := OffsetPush(q1, op, blockSize, base);
    var q3 := if q2.err.Some? then q2 else q2.(cmds := q2.cmds + [DispatchGroups(plan[0].count)]);
    if q2.err.None? {
      assert prior + (q2.cmds + [DispatchGroups(plan[0].count)]) == (prior + q2.cmds) + [DispatchGroups(plan[0].count)];
    }
    OverflowLaunchesBehind(prior, q3, op, blockSize, base, local, plan[1..]);
    var q4 := OverflowLaunches(q3, op, blockSize, base, local, plan[1..]);
    if q4.err.None? {
      assert prior + (q4.cmds + [BarrierOver(args)]) == (prior + q4.cmds) + [BarrierOver(args)];
    }
  }

  /** A recorded push always lies inside the push-constant block and is
      never empty. */
  lemma PushStepInBlock(o: Outcome, blockSize: nat, offset: nat, size: nat, value: Value)
    requires o.err.None?
    ensures var r := PushStep(o, blockSize, offset, size, value);
            r.cmds != o.cmds ==> r.cmds == o.cmds + [Push(offset, size, value)] && 0 < size && offset + size <= blockSize
    ensures var r := PushStep(o, blockSize, offset, size, value);
            r.err.Some? <==> blockSize > 0 && (size + offset > blockSize || size == 0)
  {
  }

  /** A cached pipeline is rebuilt only when its sizes differ, so a second
      overflow launch of the same size finds it ready. */
  lemma OverflowStepCaches(o: Outcome, local: Vec3, size: Vec3, count: Vec3)
    requires o.err.None? && KindFor(local, size).Some? && PositiveSizes(size)
    ensures var r := OverflowStep(o, local, size, count);
            var k := KindFor(local, size).value;
            r.err.None? && CachedSizes(r.pipes, k) == size &&
            (forall k' :: k' != k ==> CachedSizes(r.pipes, k') == CachedSizes(o.pipes, k')) &&
            OverflowStep(r, local, size, count).pipes == r.pipes
  {
  }

  // ---- the kernel object -------------------------------------------------------------

  /** A parameter made by `init` for a push-constant member: present
      exactly for the types with a case, and then of that type, name and
      offset. */
  ghost predicate ParamMatches(p: Parameter?, pair: TypePair)
    reads p
  {
    (p != null <==> HasParamCase(pair.ptype)) &&
    (p != null ==> p.ptype == pair.ptype.value && p.name == pair.name && p.offset == pair.offset)
  }

  /** `pub` holds exactly the entries of `all` with a public name. */
  ghost predicate PublicPart(pub: map<string, Parameter?>, all: map<string, Parameter?>)
  {
    forall n :: (n in pub <==> n in all && IsPublic(n)) && (n in pub ==> pub[n] == all[n])
  }

  /** The switch of `init`: a new parameter of the member's type, name
      and offset for the nine numeric types, null for any other. */
  method ParamFor(pair: TypePair, storage: ParameterType -> Storage) returns (p: Parameter?)
    requires forall t :: StorageFits(t, storage(t))
    ensures ParamMatches(p, pair) && (p != null ==> fresh(p) && p.Valid())
  {
    p := null;
    if HasParamCase(pair.ptype) {
      p := MakeParam(pair.ptype.value, storage(pair.ptype.value), pair.name, pair.offset);
    }
  }

  /** The parameter loop of `init`: one parameter per push-constant
      member, null for a type without a case; `emplace` keeps the first
      member of a name, and only public names reach `_public_params`. */
  method EmplaceParams(pairs: seq<TypePair>, storage: ParameterType -> Storage)
    returns (ps: map<string, Parameter?>, pub: map<string, Parameter?>)
    requires forall t :: StorageFits(t, storage(t))
    ensures AllMatch(ps, FirstOfEach(pairs)) && AllValid(ps) && PublicPart(pub, ps)
  {
    ps, pub := map[], map[];
    var j := 0;
    while j < |pairs|
      invariant 0 <= j <= |pairs|
      invariant AllMatch(ps, FirstOfEach(pairs[..j])) && PublicPart(pub, ps) && AllValid(ps)
    {
      var pair := pairs[j];
      var param := ParamFor(pair, storage);
      assert pairs[..j + 1][..j] == pairs[..j];
      PublicPartEmplace(pub, ps, pair.name, param);
      ps := Emplace(ps, pair.name, param);
      if IsPublic(pair.name) {
        pub := Emplace(pub, pair.name, param);
      }
      j := j + 1;
    }
    assert pairs[..|pairs|] == pairs;
  }

  /** `std::map::emplace`: an existing key keeps its value. */
  function Emplace<K, V>(m: map<K, V>, k: K, v: V): (r: map<K, V>)
    ensures r.Keys == m.Keys + {k}
    ensures k !in m ==> r[k] == v
    ensures forall n :: n in m ==> r[n] == m[n]
  {
    if k in m then m else m[k := v]
  }

  /** Emplacing into both maps, the second only for a public name, keeps
      the second the public part of the first. */
  lemma PublicPartEmplace(pub: map<string, Parameter?>, all: map<string, Parameter?>, k: string, v: Parameter?)
    requires PublicPart(pub, all)
    ensures PublicPart(if IsPublic(k) then Emplace(pub, k, v) else pub, Emplace(all, k, v))
  {
  }

  function ObjectsOf(m: map<string, Parameter?>): set<Parameter>
  {
    set n | n in m && m[n] != null :: m[n]
  }

  /** Every entry is the parameter made for the member recorded under its
      name. */
  ghost predicate AllMatch(m: map<string, Parameter?>, f: map<string, TypePair>)
    reads ObjectsOf(m)
  {
    m.Keys == f.Keys && forall n :: n in m ==> ParamMatches(m[n], f[n])
  }

  /** The member each name keeps when the members are emplaced in order. */
  function FirstOfEach(pairs: seq<TypePair>): map<string, TypePair>
  {
    if pairs == [] then map[]
    else Emplace(FirstOfEach(pairs[..|pairs| - 1]), pairs[|pairs| - 1].name, pairs[|pairs| - 1])
  }

  /** Emplacing keeps, for every name, the first member that has it. */
  lemma {:induction false} FirstOfEachIsFirst(pairs: seq<TypePair>)
    ensures FirstOfEach(pairs).Keys == Names(pairs)
    ensures forall n :: n in Names(pairs) ==> FirstOfEach(pairs)[n] == pairs[FirstNamed(pairs, n)]
  {
    if pairs != [] {
      var init := pairs[..|pairs| - 1];
      FirstOfEachIsFirst(init);
      forall n | n in Names(pairs)
        ensures FirstOfEach(pairs)[n] == pairs[FirstNamed(pairs, n)]
      {
        if n in Names(init) {
          assert init[..FirstNamed(init, n)] == pairs[..FirstNamed(init, n)];
        }
      }
    }
  }

  /** Every parameter in the map satisfies its invariant. */
  ghost predicate AllValid(m: map<string, Parameter?>)
    reads ObjectsOf(m)
  {
    forall n :: n in m && m[n] != null ==> m[n].Valid()
  }

  /** `vkd_offset` as declared. */
  function OffsetIn(ps: map<string, Parameter?>): OffsetParam
    reads if "vkd_offset" in ps && ps["vkd_offset"] != null then {ps["vkd_offset"]} else {}
  {
    if "vkd_offset" !in ps then NoOffsetParam
    else if ps["vkd_offset"] == null then NullOffsetParam
    else OffsetAt(ps["vkd_offset"].ptype, ps["vkd_offset"].offset)
  }

  /** What each parameter, in the given order, would push. */
  function ViewsOf(ps: map<string, Parameter?>, order: seq<string>): (r: seq<Option<ParamView>>)
    requires forall i :: 0 <= i < |order| ==> order[i] in ps
    reads ObjectsOf(ps)
    ensures |r| == |order| && forall i :: 0 <= i < |order| ==> r[i] == ViewOf(ps[order[i]])
  {
    if order == [] then [] else ViewsOf(ps, order[..|order| - 1]) + [ViewOf(ps[order[|order| - 1]])]
  }

  function ViewOf(p: Parameter?): Option<ParamView>
    reads p
  {
    if p == null then None else Some(ParamView(p.ptype, p.value, p.size, p.offset))
  }

  class Kernel {
    var params: map<string, Parameter?>
    var publicParams: map<string, Parameter?>
    var pushConstantSize: nat
    var localGroupSizes: Vec3
    /** The local sizes each partial pipeline was last built with. */
    var pipelines: map<PipelineKind, Vec3>
    var args: map<int, Arg>
    var argsChanged: bool
    /** The arguments the current descriptor set was built from, in index
        order; `None` before the first `update`. */
    var descriptorArgs: Option<seq<Arg>>
    /** `_constants.offset`, set by `set_offset`. */
    var offsetBase: Vec4
    var log: seq<Command>

    /** Every field but the pipeline cache and the command log. */
    function Settings(): (map<string, Parameter?>, map<string, Parameter?>, nat, Vec3, map<int, Arg>, bool, Option<seq<Arg>>, Vec4)
      reads this
    {
      (params, publicParams, pushConstantSize, localGroupSizes, args, argsChanged, descriptorArgs, offsetBase)
    }

    ghost predicate Valid()
      reads this, ObjectsOf(params)
    {
      PositiveSizes(localGroupSizes) && CachedSizes(pipelines, Full) == localGroupSizes && AllValid(params)
    }

    /** The named parameter, when there is one, is valid. */
    ghost predicate ParamValid(name: string)
      reads this, ObjectsOf(params)
    {
      name in params && params[name] != null ==> params[name].Valid()
    }

    /** A kernel after `init`'s bookkeeping, before any parameter exists. */
    constructor ()
      ensures params == map[] && publicParams == map[] && args == map[] && argsChanged
      ensures descriptorArgs == None && log == [] && pipelines == map[] && pushConstantSize == 0
    {
      params, publicParams, pushConstantSize := map[], map[], 0;
      localGroupSizes, pipelines := Vec3(0, 0, 0), map[];
      args, argsChanged, descriptorArgs := map[], true, None;
      offsetBase, log := Vec4(0, 0, 0, 0), [];
    }

    /** `_create_pipeline(pipeline, local_sizes)`: a size below 1 throws;
        otherwise the pipeline is rebuilt with these sizes. */
    method CreatePipeline(k: PipelineKind, sizes: Vec3) returns (r: Result<()>)
      modifies this
      ensures r.Ok? <==> PositiveSizes(sizes)
      ensures pipelines == (if r.Ok? then old(pipelines)[k := sizes] else old(pipelines))
      ensures Settings() == old(Settings()) && log == old(log)
    {
      if sizes.x < 1 || sizes.y < 1 || sizes.z < 1 {
        return Err("Bad pipeline local size");
      }
      pipelines := pipelines[k := sizes];
      r := Ok(());
    }

    /** The parameter and pipeline part of `init(path, func_name,
        local_sizes)`, given the compiled shader's push constants. */
    method Init(ranges: seq<PushRange>, pairs: seq<TypePair>, localSizes: Vec3, storage: ParameterType -> Storage)
      returns (r: Result<()>)
      requires forall t :: StorageFits(t, storage(t))
      requires params == map[] && publicParams == map[]
      modifies this
      ensures pushConstantSize == LastRangeSize(ranges) && localGroupSizes == localSizes
      ensures AllMatch(params, FirstOfEach(pairs)) && AllValid(params)
      ensures PublicPart(publicParams, params)
      ensures r.Ok? <==> PositiveSizes(localSizes)
      ensures r.Ok? ==> Valid() && pipelines == old(pipelines)[Full := localSizes]
      ensures log == old(log) && args == old(args)
    {
      var i := 0;
      pushConstantSize := 0;
      while i < |ranges|
        invariant 0 <= i <= |ranges| && pushConstantSize == LastRangeSize(ranges[..i])
        invariant params == map[] && publicParams == map[] && log == old(log) && args == old(args)
        invariant pipelines == old(pipelines)
      {
        assert ranges[..i + 1][..i] == ranges[..i];
        pushConstantSize := ranges[i].size;
        i := i + 1;
      }
      assert ranges[..|ranges|] == ranges;
      localGroupSizes := localSizes;
      params, publicParams := EmplaceParams(pairs, storage);
      r := CreatePipeline(Full, localSizes);

    }

    /** `get_param_by_name`: the parameter, or null when the name is
        absent. */
    method GetParamByName(name: string) returns (p: Parameter?)
      ensures name in params ==> p == params[name]
      ensures name !in params ==> p == null
    {
      if name !in params {
        return null;
      }
      p := params[name];
    }

    /** `set_push_arg_by_name(name, val)`: an unknown name changes nothing
        and gives false; otherwise the value is force-set and true. */
    method SetPushArgByName(name: string, t: ParameterType, v: Value) returns (r: Result<bool>)
      requires ParamValid(name) && WellTyped(t, v)
      modifies if name in params && params[name] != null then {params[name]} else {}
      ensures ParamValid(name) && (old(Valid()) ==> Valid()) && OffsetIn(params) == old(OffsetIn(params))
      ensures r == Ok(false) <==> name !in params
      ensures r.Err? <==> name in params && (params[name] == null || params[name].ptype != t)
      ensures r == Ok(true) ==> params[name].value == v && params[name].changed &&
                                params[name].size == SizeOf(t) && params[name].offset == old(params[name].offset)
    {
      if name !in params {
        return Ok(false);
      }
      var p := params[name];
      if p == null {
        return Err("null parameter");
      }
      if p.ptype != t {
        return Err("parameter type mismatch");
      }
      p.SetForce(v);
      r := Ok(true);
    }

    /** `set_push_arg(buf, param)`. */
    method SetPushArg(p: Parameter) returns (r: Result<()>)
      modifies this
      ensures var o := PushStep(Outcome(old(log), pipelines, None), pushConstantSize, p.offset, p.size, p.value);
              log == o.cmds && (r.Err? <==> o.err.Some?)
      ensures Settings() == old(Settings()) && pipelines == old(pipelines)
    {
      if pushConstantSize == 0 {
        return Ok(());
      }
      if p.size + p.offset > pushConstantSize {
        return Err("Param out of range for push constant");
      }
      if p.size == 0 {
        return Err("Push constant size zero.");
      }
      log := log + [Push(p.offset, p.size, p.value)];
      r := Ok(());
    }

    /** `set_push_arg_by_name(buf, name, val)`: as without a command
        buffer, and then, when `buf` is not null, the parameter is pushed. */
    method SetPushArgByNameOn(buf: bool, name: string, t: ParameterType, v: Value) returns (r: Result<bool>)
      requires ParamValid(name) && WellTyped(t, v)
      modifies this, if name in params && params[name] != null then {params[name]} else {}
      ensures ParamValid(name) && (old(Valid()) ==> Valid()) && OffsetIn(params) == old(OffsetIn(params))
      ensures Settings() == old(Settings()) && pipelines == old(pipelines)
      ensures name !in params ==> r == Ok(false) && log == old(log)
      ensures name in params && (params[name] == null || params[name].ptype != t) ==> r.Err? && log == old(log)
      ensures name in params && params[name] != null && params[name].ptype == t ==>
                var p := params[name];
                var o := PushStep(Outcome(old(log), pipelines, None), pushConstantSize, p.offset, SizeOf(t), v);
                p.value == v && p.changed &&
                log == (if buf then o.cmds else old(log)) &&
                (r.Err? <==> buf && o.err.Some?) && (r.Ok? ==> r.value)
    {
      r := SetPushArgByName(name, t, v);
      if name in params && params[name] != null && params[name].ptype == t {
        assert !r.Err?;
        assert r != Ok(false);
        assert r.Ok?;
        assert r.value;
      }
      if r == Ok(true) && buf {
        var p := params[name];
        var e := SetPushArg(p);
        assert p.value == v && p.size == SizeOf(t);
        assert log == PushStep(Outcome(old(log), pipelines, None), pushConstantSize, p.offset, SizeOf(t), v).cmds;
        if e.Err? {
          r := Err(e.msg);
        }
      }
    }

    function OffsetObjects(): set<Parameter>
      reads this
    {
      if "vkd_offset" in params && params["vkd_offset"] != null then {params["vkd_offset"]} else {}
    }

    /** `_push_execution_offset(buf, offset)`. */
    method PushExecutionOffset(v: Vec4) returns (r: Result<()>)
      requires ParamValid("vkd_offset")
      modifies this, OffsetObjects()
      ensures ParamValid("vkd_offset") && CachedSizes(pipelines, Full) == old(CachedSizes(pipelines, Full)) && OffsetIn(params) == old(OffsetIn(params))
      ensures Settings() == old(Settings()) && pipelines == old(pipelines)
      ensures var o := OffsetPush(Outcome(old(log), pipelines, None), OffsetIn(params), pushConstantSize,
                                  Shifted4(offsetBase, v));
              log == o.cmds && (r.Err? <==> o.err.Some?)
    {
      var b := SetPushArgByNameOn(true, "vkd_offset", PIvec4, IVec4Value(Shifted4(offsetBase, v)));
      r := if b.Err? then Err(b.msg) else Ok(());
    }

    /** `_dispatch_overflow(buf, size, count)`. */
    method DispatchOverflow(size: Vec3, count: Vec3) returns (r: Result<()>)
      modifies this
      ensures var o := OverflowStep(Outcome(old(log), old(pipelines), None), localGroupSizes, size, count);
              log == o.cmds && pipelines == o.pipes && (r.Err? <==> o.err.Some?)
      ensures Settings() == old(Settings())
    {
      var kind := KindFor(localGroupSizes, size);
      if kind.None? {
        return Ok(());
      }
      var k := kind.value;
      if CachedSizes(pipelines, k) != size {
        var c := CreatePipeline(k, size);
        if c.Err? {
          return Err(c.msg);
        }
      }
      log := log + [Bind(k, size), DispatchGroups(count)];
      r := Ok(());
    }

    /** The parameter loop of `dispatch`: each parameter, in the given
        order, is pushed. */
    method PushParams(order: seq<string>) returns (r: Result<()>)
      requires forall i :: 0 <= i < |order| ==> order[i] in params
      modifies this
      ensures var d := ParamPushes(Outcome(old(log), old(pipelines), None), old(ViewsOf(params, order)), pushConstantSize);
              log == d.cmds && (r.Err? <==> d.err.Some?)
      ensures Settings() == old(Settings()) && pipelines == old(pipelines)
    {
      ghost var views := ViewsOf(params, order);
      ghost var o0 := Outcome(log, pipelines, None);
      ghost var o := o0;
      var i := 0;
      while i < |order|
        invariant 0 <= i <= |order| && params == old(params) && ViewsOf(params, order) == views
        invariant Settings() == old(Settings()) && pipelines == old(pipelines)
        invariant o == ParamPushes(o0, views[..i], pushConstantSize)
        invariant o.err.None? && log == o.cmds && o.pipes == pipelines
      {
        assert views[..i + 1][..i] == views[..i];
        var p := params[order[i]];
        if p == null {
          o := o.(err := Some("null parameter"));
          ParamPushesStuck(o0, views, pushConstantSize, i + 1);
          return Err("null parameter");
        }
        var e := SetPushArg(p);
        o := PushStep(o, pushConstantSize, p.offset, p.size, p.value);
        if e.Err? {
          ParamPushesStuck(o0, views, pushConstantSize, i + 1);
          return Err(e.msg);
        }
        i := i + 1;
      }
      assert views[..|order|] == views;
      r := Ok(());
    }

    /** One overflow launch of `dispatch`: its offset is pushed, then
        `_dispatch_overflow` runs. */
    method OverflowLaunch(l: Launch) returns (r: Result<()>)
      requires ParamValid("vkd_offset")
      modifies this, OffsetObjects()
      ensures ParamValid("vkd_offset") && CachedSizes(pipelines, Full) == old(CachedSizes(pipelines, Full)) && OffsetIn(params) == old(OffsetIn(params)) && Settings() == old(Settings())
      ensures var d := LaunchStep(Outcome(old(log), old(pipelines), None), OffsetIn(params), pushConstantSize,
                                  offsetBase, localGroupSizes, l);
              log == d.cmds && pipelines == d.pipes && (r.Err? <==> d.err.Some?)
    {
      r := PushExecutionOffset(Vec4(l.offset.x, l.offset.y, l.offset.z, 0));
      if r.Ok? {
        r := DispatchOverflow(l.size, l.count);
      }
    }

    /** The overflow part of `dispatch`: each launch pushes its offset and
        goes through `_dispatch_overflow`. */
    method OverflowLaunchLoop(ls: seq<Launch>) returns (r: Result<()>)
      requires ParamValid("vkd_offset")
      modifies this, OffsetObjects()
      ensures ParamValid("vkd_offset") && CachedSizes(pipelines, Full) == old(CachedSizes(pipelines, Full)) && OffsetIn(params) == old(OffsetIn(params))
      ensures var d := OverflowLaunches(Outcome(old(log), old(pipelines), None), old(OffsetIn(params)), pushConstantSize,
                                        offsetBase, localGroupSizes, ls);
              log == d.cmds && pipelines == d.pipes && (r.Err? <==> d.err.Some?)
      ensures Settings() == old(Settings())
    {
      ghost var op := OffsetIn(params);
      ghost var bs, base, local := pushConstantSize, offsetBase, localGroupSizes;
      ghost var o0 := Outcome(log, pipelines, None);
      ghost var o := o0;
      var n := 0;
      r := Ok(());
      while n < |ls| && r.Ok?
        invariant 0 <= n <= |ls| && ParamValid("vkd_offset") && CachedSizes(pipelines, Full) == old(CachedSizes(pipelines, Full)) && OffsetIn(params) == op
        invariant Settings() == old(Settings())
        invariant o == OverflowLaunches(o0, op, bs, base, local, ls[..n])
        invariant log == o.cmds && pipelines == o.pipes && (r.Err? <==> o.err.Some?)
      {
        OverflowLaunchesNext(o0, op, bs, base, local, ls, n);
        r := OverflowLaunch(ls[n]);
        o := LaunchStep(o, op, bs, base, local, ls[n]);
        n := n + 1;
      }
      if r.Err? {
        OverflowLaunchesStuckAt(o0, op, bs, base, local, ls, n);
      } else {
        assert ls[..|ls|] == ls;
      }
    }

    /** `dispatch(buf, x, y, z)`: records what `DispatchSpec` describes,
        stopping at the first exception. Parameters are visited in the
        given order, which stands for the name order of the parameter map:
        every name once. The descriptor set must have been built by
        `update`. */
    method Dispatch(global: Vec3, order: seq<string>) returns (r: Result<()>)
      requires Valid() && descriptorArgs.Some?
      requires forall i, j :: 0 <= i < j < |order| ==> order[i] != order[j]
      requires forall i :: 0 <= i < |order| ==> order[i] in params
      requires forall n :: n in params ==> n in order
      modifies this, OffsetObjects()
      ensures Valid() && Settings() == old(Settings())
      ensures var o := DispatchSpec(old(log), old(localGroupSizes), old(pipelines), old(ViewsOf(params, order)),
                                    old(OffsetIn(params)), old(pushConstantSize), old(offsetBase), old(args), global);
              log == o.cmds && pipelines == o.pipes && (r.Err? <==> o.err.Some?)
    {
      r := RecordDispatch(global, order);
    }

    /** The recording part of `dispatch`, for any order of names. */
    method RecordDispatch(global: Vec3, order: seq<string>) returns (r: Result<()>)
      requires PositiveSizes(localGroupSizes) && ParamValid("vkd_offset")
      requires forall i :: 0 <= i < |order| ==> order[i] in params
      modifies this, OffsetObjects()
      ensures ParamValid("vkd_offset") && CachedSizes(pipelines, Full) == old(CachedSizes(pipelines, Full))
      ensures Settings() == old(Settings())
      ensures var o := DispatchSpec(old(log), old(localGroupSizes), old(pipelines), old(ViewsOf(params, order)),
                                    old(OffsetIn(params)), old(pushConstantSize), old(offsetBase), old(args), global);
              log == o.cmds && pipelines == o.pipes && (r.Err? <==> o.err.Some?)
    {
      var local := localGroupSizes;
      ghost var op := OffsetIn(params);
      ghost var views := ViewsOf(params, order);
      ghost var pcs, base := pushConstantSize, offsetBase;
      var plan := Plan(global, local);
      ghost var spec := DispatchWith(log, local, pipelines, views, op, pcs, base, args, plan);
      log := log + [Bind(Full, local)];
      ghost var o0 := Outcome(log, pipelines, None);
      assert ViewsOf(params, order) == views && OffsetIn(params) == op;
      r := PushParams(order);
      ghost var o1 := ParamPushes(o0, views, pcs);
      assert log == o1.cmds && (r.Err? <==> o1.err.Some?);
      if r.Err? {
        DispatchWithStuck(old(log), local, o0.pipes, views, op, pcs, base, args, plan);
        return;
      }
      assert Shifted4(offsetBase, Vec4(0, 0, 0, 0)) == base;
      r := PushExecutionOffset(Vec4(0, 0, 0, 0));
      ghost var o2 := OffsetPush(o1, op, pcs, base);
      assert log == o2.cmds && (r.Err? <==> o2.err.Some?);
      if r.Err? {
        DispatchWithStuck(old(log), local, o0.pipes, views, op, pcs, base, args, plan);
        return;
      }
      log := log + [DispatchGroups(plan[0].count)];
      ghost var o3 := Outcome(log, pipelines, None);
      assert o3 == o2.(cmds := o2.cmds + [DispatchGroups(plan[0].count)]);
      r := OverflowLaunchLoop(plan[1..]);
      ghost var o4 := OverflowLaunches(o3, op, pcs, base, local, plan[1..]);
      assert log == o4.cmds && pipelines == o4.pipes && (r.Err? <==> o4.err.Some?);
      if r.Ok? {
        log := log + [BarrierOver(args)];
      }
      assert spec == Outcome(log, pipelines, o4.err);
    }

    /** `set_arg(index, buffer)` and `set_arg(index, image)`. */
    method SetArg(index: int, a: Arg)
      modifies this
      ensures args == old(args)[index := a] && argsChanged
      ensures params == old(params) && log == old(log) && descriptorArgs == old(descriptorArgs)
      ensures publicParams == old(publicParams) && pushConstantSize == old(pushConstantSize)
      ensures localGroupSizes == old(localGroupSizes) && pipelines == old(pipelines) && offsetBase == old(offsetBase)
    {
      args := args[index := a];
      argsChanged := true;
    }

    /** `set_offset(x, y, z, w)`. */
    method SetOffset(v: Vec4)
      modifies this
      ensures offsetBase == v && params == old(params) && log == old(log) && args == old(args)
      ensures publicParams == old(publicParams) && pushConstantSize == old(pushConstantSize)
      ensures localGroupSizes == old(localGroupSizes) && pipelines == old(pipelines)
      ensures argsChanged == old(argsChanged) && descriptorArgs == old(descriptorArgs)
    {
      offsetBase := v;
    }

    /** `update()`: rebuilds the descriptor set from the arguments, in index
        order, only when an argument changed, then clears the flag. */
    method Update(order: seq<int>)
      requires forall i, j :: 0 <= i < j < |order| ==> order[i] < order[j]
      requires forall i :: 0 <= i < |order| ==> order[i] in args
      requires forall k :: k in args ==> k in order
      modifies this
      ensures !argsChanged && args == old(args) && params == old(params) && log == old(log)
      ensures publicParams == old(publicParams) && pushConstantSize == old(pushConstantSize)
      ensures localGroupSizes == old(localGroupSizes) && pipelines == old(pipelines) && offsetBase == old(offsetBase)
      ensures descriptorArgs == if old(argsChanged) then Some(ArgsInOrder(args, order)) else old(descriptorArgs)
    {
      if argsChanged {
        descriptorArgs := Some(ArgsInOrder(args, order));
        argsChanged := false;
      }
    }
  }

  function ArgsInOrder(args: map<int, Arg>, order: seq<int>): seq<Arg>
    requires forall i :: 0 <= i < |order| ==> order[i] in args
  {
    seq(|order|, i requires 0 <= i < |order| => args[order[i]])
  }

}
