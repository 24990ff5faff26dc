// The timeline's line list (src/ui/timeline.hpp): sequencer lines shared by
// `std::shared_ptr`, the accessors the sequencer widget calls, and adding and removing
// lines by identity.
module Timelines {
  import opened Wrappers

  /** `SequencerLine`: the widget edits `start` and `end` through `int*` arguments,
      so a line is an object. */
  class SequencerLine {
    var name: string
    var start: int
    var end: int
    var colour: bv32
    var frameCount: int
    var frameJumped: bool

    constructor (name: string)
      ensures this.name == name && start == 0 && end == 100 && colour == 0x999999FF
      ensures frameCount == 0 && !frameJumped
    {
      this.name := name;
      start, end, colour := 0, 100, 0x999999FF;
      frameCount, frameJumped := 0, false;
    }
  }

  /** The source compares a signed index with the unsigned line count, so a
      negative index converts to a huge value and is out of range. */
  predicate InRange(index: int, count: nat)
  {
    0 <= index < count
  }

  /** The first position holding `line`, if any. */
  function FirstAt(lines: seq<SequencerLine>, line: SequencerLine): (r: Option<nat>)
    ensures r.Some? ==> r.value < |lines| && lines[r.value] == line &&
                        forall k :: 0 <= k < r.value ==> lines[k] != line
    ensures r.None? ==> line !in lines
  {
    if lines == [] then None
    else if lines[0] == line then Some(0)
    else match FirstAt(lines[1..], line)
      case None => None
      case Some(k) => Some(k + 1)
  }

  /** The list after erasing the first occurrence of `line`. */
  function WithoutFirst(lines: seq<SequencerLine>, line: SequencerLine): seq<SequencerLine>
  {
    match FirstAt(lines, line)
    case None => lines
    case Some(k) => lines[..k] + lines[k + 1..]
  }

  /** Removing keeps every other line in order, drops exactly one copy of
      a present line, and keeps the others' multiplicity. */
  lemma WithoutFirstCounts(lines: seq<SequencerLine>, line: SequencerLine)
    ensures line in lines ==> |WithoutFirst(lines, line)| == |lines| - 1
    ensures line !in lines ==> WithoutFirst(lines, line) == lines
    ensures multiset(WithoutFirst(lines, line)) == multiset(lines) - multiset{line}
  {
    match FirstAt(lines, line)
    case None =>
    case Some(k) =>
      assert lines == lines[..k] + [lines[k]] + lines[k + 1..];
  }

  /** `SequencerImpl` together with the `Timeline` that owns it. */
  class Timeline {
    var lines: seq<SequencerLine>
    var frameMax: int
    var p1: int
    var p2: int
    var selectedEntry: int
    var firstFrame: int

    constructor ()
      ensures lines == [] && frameMax == 100 && p1 == 0 && p2 == 100
      ensures selectedEntry == 0 && firstFrame == 0
    {
      lines, frameMax, p1, p2, selectedEntry, firstFrame := [], 100, 0, 100, 0, 0;
    }

    method GetFrameMin() returns (r: int)
      ensures r == 0
    {
      r := 0;
    }

    method GetItemCount() returns (r: nat)
      ensures r == |lines|
    {
      r := |lines|;
    }

    /** `Get`: the start, end and colour of a line in range; nothing is
        written for an index out of range. */
    method Get(index: int) returns (r: Option<(int, int, bv32)>)
      ensures InRange(index, |lines|) <==> r.Some?
      ensures r.Some? ==> r.value == (lines[index].start, lines[index].end, lines[index].colour)
    {
      if InRange(index, |lines|) {
        var l := lines[index];
        return Some((l.start, l.end, l.colour));
      }
      return None;
    }

    /** `GetItemLabel`: the name of a line in range, "" otherwise. */
    method GetItemLabel(index: int) returns (r: string)
      ensures InRange(index, |lines|) ==> r == lines[index].name
      ensures !InRange(index, |lines|) ==> r == ""
    {
      if InRange(index, |lines|) {
        return lines[index].name;
      }
      return "";
    }

    /** `add_line`: appends. */
    method AddLine(line: SequencerLine)
      modifies this
      ensures lines == old(lines) + [line]
      ensures frameMax == old(frameMax) && p1 == old(p1) && p2 == old(p2)
      ensures selectedEntry == old(selectedEntry) && firstFrame == old(firstFrame)
    {
      lines := lines + [line];
    }

    /** `remove_line`: the search loop erases the first line that is the
        same object, and stops. */
    method RemoveLine(line: SequencerLine)
      modifies this
      ensures lines == WithoutFirst(old(lines), line)
      ensures frameMax == old(frameMax) && p1 == old(p1) && p2 == old(p2)
      ensures selectedEntry == old(selectedEntry) && firstFrame == old(firstFrame)
    {
      var i := 0;
      while i < |lines|
        invariant 0 <= i <= |lines| && lines == old(lines)
        invariant forall k :: 0 <= k < i ==> lines[k] != line
      {
        if lines[i] == line {
          assert FirstAt(lines, line) == Some(i);
          lines := lines[..i] + lines[i + 1..];
          return;
        }
        i := i + 1;
      }
    }
  }
}
