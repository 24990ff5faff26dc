// The sand node's add-location buffer (src/compute/sand.cpp): one word per
// column, set to 1 where a grain is dropped this frame. The random
// offsets are inputs.
module Sand {

  /** The columns `update` visits: i in [1, width) that are multiples of
      width / 5. */
  predicate Visited(width: int, i: int)
    requires width >= 5
  {
    1 <= i < width && i % (width / 5) == 0
  }

  /** As written: the dropped column is clamped to [0, width]. */
  function AddColumnAsWritten(width: int, i: int, offset: int): int
  {
    if i + offset < width then (if i + offset < 0 then 0 else i + offset) else width
  }

  /** The column is clamped to [0, width - 1], the buffer's valid range. */
  function AddColumn(width: int, i: int, offset: int): (c: int)
    requires width >= 1
    ensures 0 <= c < width
    ensures 0 <= i + offset < width ==> c == i + offset
  {
    if i + offset < width - 1 then (if i + offset < 0 then 0 else i + offset) else width - 1
  }

  /** As written, a visited column close to the right edge plus a positive
      offset lands one past the last word of a 10-word buffer. */
  lemma AddColumnOverruns()
    ensures Visited(10, 8) && AddColumnAsWritten(10, 8, 2) == 10
  {
  }

  /** The marked columns for one frame; `offsets[i]` is the random offset
      drawn when column i is visited. */
  function Marks(width: int, offsets: seq<int>, n: int): set<int>
    requires width >= 5 && |offsets| == width
    requires 0 <= n <= width
  {
    set i | 0 <= i < n && Visited(width, i) :: AddColumn(width, i, offsets[i])
  }

  /** Every mark is a valid column, and a visited column whose offset keeps
      it inside the buffer is marked exactly there. */
  lemma MarksInRange(width: int, offsets: seq<int>)
    requires width >= 5 && |offsets| == width
    ensures forall c :: c in Marks(width, offsets, width) ==> 0 <= c < width
    ensures forall i :: 0 <= i < width && Visited(width, i) && 0 <= i + offsets[i] < width ==>
              i + offsets[i] in Marks(width, offsets, width)
  {
    forall i | 0 <= i < width && Visited(width, i) && 0 <= i + offsets[i] < width
      ensures i + offsets[i] in Marks(width, offsets, width)
    {
      assert AddColumn(width, i, offsets[i]) == i + offsets[i];
    }
  }

  class SandNode {
    const width: int
    const addLocations: array<int>

    /** The buffer holds one word per column. */
    constructor (width: int)
      requires width >= 5
      ensures this.width == width && addLocations.Length == width && fresh(addLocations)
    {
      this.width := width;
      addLocations := new int[width];
    }

    /** `update`'s buffer fill: zero every column, then mark the dropped
        columns with 1. */
    method FillAddLocations(offsets: seq<int>)
      requires width >= 5 && addLocations.Length == width && |offsets| == width
      modifies addLocations
      ensures forall c :: 0 <= c < width ==> addLocations[c] == if c in Marks(width, offsets, width) then 1 else 0
    {
      var c := 0;
      while c < width
        invariant 0 <= c <= width
        invariant forall k :: 0 <= k < c ==> addLocations[k] == 0
      {
        addLocations[c] := 0;
        c := c + 1;
      }
      var i := 1;
      assert Marks(width, offsets, 1) == {};
      while i < width
        invariant 1 <= i <= width
        invariant forall k :: 0 <= k < width ==> addLocations[k] == if k in Marks(width, offsets, i) then 1 else 0
      {
        if i % (width / 5) == 0 {
          var off := AddColumn(width, i, offsets[i]);
          addLocations[off] := 1;
          assert Marks(width, offsets, i + 1) == Marks(width, offsets, i) + {off};
        } else {
          assert Marks(width, offsets, i + 1) == Marks(width, offsets, i);
        }
        i := i + 1;
      }
    }
  }
}
