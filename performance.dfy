// The performance report log (src/ui/performance.hpp, and the trim loop at
// the top of `Performance::draw` in src/ui/performance.cpp): timed reports
// are numbered as they arrive and the oldest are dropped beyond a limit.
module Performances {
  import opened Wrappers

  /** 2^64: `size_t`, the type the report count is compared in. */
  const SizeRange: int := 0x1_0000_0000_0000_0000

  datatype Report = Report(index: int, kind: string, durationMs: int, extra: string)

  /** Indices strictly increase from the front of the deque to the back and
      all lie below the next index to hand out. */
  ghost predicate Numbered(reports: seq<Report>, next: int)
  {
    (forall i, j :: 0 <= i < j < |reports| ==> reports[i].index < reports[j].index) &&
    (forall i :: 0 <= i < |reports| ==> reports[i].index < next)
  }

  /** `_reports_to_keep` as the trim loop sees it: compared with a `size_t`,
      a negative `int` turns into a huge unsigned value. */
  function KeepLimit(keep: int): (r: nat)
    requires -0x8000_0000 <= keep < 0x8000_0000
    ensures keep >= 0 ==> r == keep
    ensures keep < 0 ==> r >= 0x8000_0000_0000_0000
  {
    if keep >= 0 then keep else keep + SizeRange
  }

  /** What survives trimming: the newest `KeepLimit(keep)` reports, or all
      of them when there are fewer. */
  function Trimmed(reports: seq<Report>, keep: int): (r: seq<Report>)
    requires -0x8000_0000 <= keep < 0x8000_0000
  {
    if |reports| > KeepLimit(keep) then reports[|reports| - KeepLimit(keep)..] else reports
  }

  /** Trimming keeps a suffix no longer than the limit, keeps everything
      for a negative limit, and never breaks the numbering. */
  lemma TrimmedKeepsNewest(reports: seq<Report>, keep: int, next: int)
    requires -0x8000_0000 <= keep < 0x8000_0000
    ensures var r := Trimmed(reports, keep);
            r == reports[|reports| - |r|..] &&
            |r| == (if |reports| <= KeepLimit(keep) then |reports| else KeepLimit(keep)) &&
            (0 <= keep ==> |r| <= keep) &&
            (keep < 0 && |reports| < 0x8000_0000_0000_0000 ==> r == reports) &&
            (Numbered(reports, next) ==> Numbered(r, next))
  {
    var r := Trimmed(reports, keep);
    if Numbered(reports, next) {
      var d := |reports| - |r|;
      forall i, j | 0 <= i < j < |r|
        ensures r[i].index < r[j].index
      {
        assert r[i] == reports[d + i] && r[j] == reports[d + j];
      }
      forall i | 0 <= i < |r|
        ensures r[i].index < next
      {
        assert r[i] == reports[d + i];
      }
    }
  }

  /** The fields version 0 of the archive carries. */
  datatype Archive = Archive(reports: seq<Report>, reportsToKeep: int, index: int, open: bool)

  class Performance {
    var reports: seq<Report>
    /** `_reports_to_keep`, a 32-bit `int`. */
    var reportsToKeep: int
    /** `_index`, the number the next report gets. */
    var index: int
    var open: bool

    ghost predicate Valid()
      reads this
    {
      -0x8000_0000 <= reportsToKeep < 0x8000_0000 && Numbered(reports, index)
    }

    constructor ()
      ensures Valid()
      ensures reports == [] && reportsToKeep == 10 && index == 0 && !open
    {
      reports, reportsToKeep, index, open := [], 10, 0, false;
    }

    method Open(value: bool)
      modifies this
      ensures open == value
      ensures reports == old(reports) && reportsToKeep == old(reportsToKeep) && index == old(index)
    {
      open := value;
    }

    /** `add`: the report joins the back with the current index, and the
        index moves on by one. */
    method Add(kind: string, durationMs: int, extra: string)
      requires Valid()
      modifies this
      ensures Valid()
      ensures reports == old(reports) + [Report(old(index), kind, durationMs, extra)]
      ensures index == old(index) + 1
      ensures reportsToKeep == old(reportsToKeep) && open == old(open)
    {
      reports := reports + [Report(index, kind, durationMs, extra)];
      index := index + 1;
    }

    /** The trim loop: the front report is dropped while there are more
        than the limit. */
    method Trim()
      requires Valid()
      modifies this
      ensures Valid()
      ensures reports == Trimmed(old(reports), reportsToKeep)
      ensures reportsToKeep == old(reportsToKeep) && index == old(index) && open == old(open)
    {
      var limit := if reportsToKeep >= 0 then reportsToKeep else reportsToKeep + SizeRange;
      var kept := reports;
      while |kept| > limit
        invariant kept == old(reports)[|old(reports)| - |kept|..]
        invariant |old(reports)| > limit ==> |kept| >= limit
        invariant |old(reports)| <= limit ==> kept == old(reports)
        decreases |kept|
      {
        kept := kept[1..];
      }
      reports := kept;
      TrimmedKeepsNewest(old(reports), reportsToKeep, index);
    }

    /** `serialize` when saving: version 0 writes the four fields; any other
        version writes nothing. */
    method Save(version: nat) returns (a: Option<Archive>)
      ensures version == 0 <==> a.Some?
      ensures a.Some? ==> a.value == Archive(reports, reportsToKeep, index, open)
    {
      if version == 0 {
        return Some(Archive(reports, reportsToKeep, index, open));
      }
      return None;
    }

    /** `serialize` when loading: version 0 reads the four fields back;
        any other version leaves the object as it was. */
    method Load(version: nat, a: Archive)
      modifies this
      ensures version == 0 ==> reports == a.reports && reportsToKeep == a.reportsToKeep &&
                               index == a.index && open == a.open
      ensures version != 0 ==> reports == old(reports) && reportsToKeep == old(reportsToKeep) &&
                               index == old(index) && open == old(open)
    {
      if version == 0 {
        reports, reportsToKeep, index, open := a.reports, a.reportsToKeep, a.index, a.open;
      }
    }
  }

  /** Saving then loading at version 0 restores every field. */
  method SaveLoadRoundTrip(p: Performance, q: Performance)
    modifies q
    ensures q.reports == p.reports && q.reportsToKeep == p.reportsToKeep
    ensures q.index == p.index && q.open == p.open
  {
    var a := p.Save(0);
    q.Load(0, a.value);
  }
}
