// The project bin (src/ui/bin.cpp): an ordered list of file entries and a
// selected row, where row 0 is the "new empty sequence" item and entry k is
// shown on row k + 1.
module Bins {
  import opened Wrappers

  datatype Entry = Entry(path: string)

  /** The paths of the entries, in order. */
  function Paths(entries: seq<Entry>): (r: seq<string>)
    ensures |r| == |entries|
    ensures forall k :: 0 <= k < |r| ==> r[k] == entries[k].path
  {
    if entries == [] then [] else Paths(entries[..|entries| - 1]) + [entries[|entries| - 1].path]
  }

  /** What a list row stands for: row 0 the empty sequence (`None`), row
      k + 1 entry k. */
  function RowEntry(entries: seq<Entry>, row: nat): (r: Option<Entry>)
    requires row <= |entries|
    ensures row == 0 <==> r.None?
    ensures r.Some? ==> r.value == entries[row - 1]
  {
    if row == 0 then None else Some(entries[row - 1])
  }

  /** Clicking a row: the selected row is deselected (-1), any other row
      becomes the selection. */
  function Click(selected: int, row: nat): (r: int)
    ensures r == row || r == -1
    ensures r == -1 <==> selected == row
  {
    if selected == row then -1 else row
  }

  class Bin {
    var entries: seq<Entry>
    /** `_selected`: a list row, or -1 for none. */
    var selected: int

    constructor ()
      ensures entries == [] && selected == -1
    {
      entries, selected := [], -1;
    }

    /** `add_entry`: appends an entry with the path. */
    method AddEntry(path: string)
      modifies this
      ensures entries == old(entries) + [Entry(path)]
      ensures Paths(entries) == Paths(old(entries)) + [path]
      ensures selected == old(selected)
    {
      entries := entries + [Entry(path)];
    }

    /** `remove_entry`: erases position `i` and shifts the rest down; the
        source requires a valid position. */
    method RemoveEntry(i: nat)
      requires i < |entries|
      modifies this
      ensures entries == old(entries[..i] + entries[i + 1..])
      ensures |entries| == |old(entries)| - 1
      ensures forall k :: 0 <= k < i ==> entries[k] == old(entries[k])
      ensures forall k :: i <= k < |entries| ==> entries[k] == old(entries[k + 1])
      ensures selected == old(selected)
    {
      entries := entries[..i] + entries[i + 1..];
    }

    /** `get_entry`: the path of a valid position, "" otherwise. */
    method GetEntry(i: int) returns (r: string)
      ensures 0 <= i < |entries| ==> r == entries[i].path
      ensures !(0 <= i < |entries|) ==> r == ""
    {
      if 0 <= i < |entries| {
        return entries[i].path;
      }
      return "";
    }

    /** The selection toggle in `draw`, for a click on a shown row. */
    method ClickRow(row: nat)
      requires row <= |entries|
      modifies this
      ensures selected == Click(old(selected), row)
      ensures entries == old(entries)
    {
      if selected == row {
        selected := -1;
      } else {
        selected := row;
      }
    }
  }
}
