// The photo browser (src/ui/photo_browser.cpp): which files it lists, where
// each listed file sits in the thumbnail grid, and its set of entries.
// The directory listing is an input: a sequence of file extensions.
module PhotoBrowsers {
  import opened Strings

  /** The three extensions the browser lists, in lower case. */
  predicate KnownExtension(lowered: string)
  {
    lowered == ".mp4" || lowered == ".exr" || lowered == ".raf"
  }

  /** `valid_extension`: lowers a copy of the extension character by
      character, then compares it with the three known ones. */
  method ValidExtension(ext: string) returns (r: bool)
    ensures r <==> KnownExtension(Lower(ext))
  {
    var lowered := ext;
    var i := 0;
    while i < |lowered|
      invariant 0 <= i <= |lowered| == |ext|
      invariant lowered[..i] == Lower(ext)[..i] && lowered[i..] == ext[i..]
    {
      lowered := lowered[i := LowerChar(lowered[i])];
      i := i + 1;
    }
    assert lowered == Lower(ext);
    r := lowered == ".mp4" || lowered == ".exr" || lowered == ".raf";
  }

  /** The check is case-insensitive: two extensions that differ only in
      the case of letters are treated alike. */
  lemma CaseInsensitive(a: string, b: string)
    requires Lower(a) == Lower(b)
    ensures KnownExtension(Lower(a)) <==> KnownExtension(Lower(b))
    ensures KnownExtension(Lower(Lower(a))) <==> KnownExtension(Lower(a))
  {
    LowerIdempotent(a);
  }

  /** `draw_entry`'s grid cell for the i-th listed file: column, row, and
      whether the next one goes on the same line. The source divides by
      `per_column`, so it must be positive. */
  datatype Cell = Cell(column: nat, row: nat, sameLine: bool)

  function Place(i: nat, perColumn: int): (r: Cell)
    requires perColumn > 0
    ensures r.column < perColumn && r.row * perColumn + r.column == i
    ensures r.sameLine <==> r.column != perColumn - 1
  {
    Cell(i % perColumn, i / perColumn, i % perColumn != perColumn - 1)
  }

  /** The cells of the listed files, in listing order. */
  function Cells(exts: seq<string>, perColumn: int): (r: seq<Cell>)
    requires perColumn > 0
  {
    if exts == [] then []
    else
      var before := Cells(exts[..|exts| - 1], perColumn);
      if KnownExtension(Lower(exts[|exts| - 1])) then before + [Place(|before|, perColumn)] else before
  }

  function CountKnown(exts: seq<string>): nat
  {
    if exts == [] then 0
    else CountKnown(exts[..|exts| - 1]) + (if KnownExtension(Lower(exts[|exts| - 1])) then 1 else 0)
  }

  /** Every listed file gets its own cell: the k-th listed file is at
      column k mod per_column, row k div per_column. */
  lemma {:induction false} CellsNumbered(exts: seq<string>, perColumn: int)
    requires perColumn > 0
    ensures |Cells(exts, perColumn)| == CountKnown(exts)
    ensures forall k :: 0 <= k < |Cells(exts, perColumn)| ==> Cells(exts, perColumn)[k] == Place(k, perColumn)
  {
    if exts != [] {
      CellsNumbered(exts[..|exts| - 1], perColumn);
    }
  }

  /** The directory loop in `draw`: counts the files it lists and places
      each of them. */
  method Draw(exts: seq<string>, perColumn: int) returns (cells: seq<Cell>)
    requires perColumn > 0
    ensures cells == Cells(exts, perColumn)
    ensures |cells| == CountKnown(exts)
  {
    cells := [];
    var i := 0;
    var n := 0;
    while n < |exts|
      invariant 0 <= n <= |exts|
      invariant cells == Cells(exts[..n], perColumn) && i == |cells|
    {
      var valid := ValidExtension(exts[n]);
      if valid {
        cells := cells + [Place(i, perColumn)];
        i := i + 1;
      }
      assert exts[..n + 1][..n] == exts[..n];
      n := n + 1;
    }
    assert exts[..n] == exts;
    CellsNumbered(exts, perColumn);
  }

  class PhotoBrowser {
    var entries: set<string>
    var selected: int

    constructor ()
      ensures entries == {} && selected == -1
    {
      entries, selected := {}, -1;
    }

    /** `add_entry`: set insertion, so adding twice is adding once. */
    method AddEntry(path: string)
      modifies this
      ensures entries == old(entries) + {path}
      ensures path in entries
      ensures old(path in entries) ==> entries == old(entries)
      ensures selected == old(selected)
    {
      entries := entries + {path};
    }

    /** `remove_entry`: set erasure; removing an absent path changes
        nothing. */
    method RemoveEntry(path: string)
      modifies this
      ensures entries == old(entries) - {path}
      ensures path !in entries
      ensures old(path !in entries) ==> entries == old(entries)
      ensures selected == old(selected)
    {
      entries := entries - {path};
    }
  }
}
