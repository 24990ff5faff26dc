// The log console (src/console.hpp): streamed values collect in a pending
// line buffer; streaming a manipulator such as `std::endl` moves the pending
// line into the stored log, ended by a newline, and echoes it to standard
// output. Formatting a value as text is left to the caller: the model
// streams the text a value formats to.
module Consoles {
  import opened Wrappers

  /** A log made of whole lines: empty, or ending with a newline. */
  predicate WholeLines(s: string)
  {
    s == "" || s[|s| - 1] == '\n'
  }

  class Console {
    /** The `std::stringstream` behind `buf()`. */
    var pending: string
    /** `_storage`. */
    var storage: string
    /** The lines echoed to standard output, in order. */
    var echoed: seq<string>

    ghost predicate Valid()
      reads this
    {
      WholeLines(storage)
    }

    constructor ()
      ensures Valid() && pending == "" && storage == "" && echoed == []
    {
      pending, storage, echoed := "", "", [];
    }

    /** `operator<<(T)`: the value's text joins the pending line; the log
        is untouched. */
    method Write(text: string)
      requires Valid()
      modifies this
      ensures Valid()
      ensures pending == old(pending) + text && storage == old(storage) && echoed == old(echoed)
      ensures (pending, storage) == Replay(old(pending), old(storage), [Some(text)])
    {
      pending := pending + text;
    }

    /** `operator<<(manipulator)`: the pending line, with a newline, is
        appended to the log and echoed; the pending line is cleared. */
    method EndLine()
      requires Valid()
      modifies this
      ensures Valid()
      ensures storage == old(storage) + old(pending) + "\n" && pending == ""
      ensures echoed == old(echoed) + [old(pending)]
      ensures (pending, storage) == Replay(old(pending), old(storage), [None])
    {
      storage := storage + pending + "\n";
      echoed := echoed + [pending];
      pending := "";
    }

    /** `log()`. */
    method Log() returns (s: string)
      requires Valid()
      ensures s == storage && WholeLines(s)
    {
      s := storage;
    }
  }

  /** What the console holds after a run of streamed texts (`Some`) and
      line ends (`None`), from a given state: the pending line and the log. */
  function Replay(pending: string, storage: string, events: seq<Option<string>>): (string, string)
  {
    if events == [] then (pending, storage)
    else
      var (p, s) := Replay(pending, storage, events[..|events| - 1]);
      match events[|events| - 1]
      case Some(t) => (p + t, s)
      case None => ("", s + p + "\n")
  }

  /** The log only ever grows, and by whole lines: whatever is streamed,
      the old log is a prefix of the new one, and a log of whole lines stays
      one. */
  lemma {:induction false} ReplayGrows(pending: string, storage: string, events: seq<Option<string>>)
    requires WholeLines(storage)
    ensures var (p, s) := Replay(pending, storage, events);
            storage <= s && WholeLines(s)
  {
    if events != [] {
      ReplayGrows(pending, storage, events[..|events| - 1]);
      var (p, s) := Replay(pending, storage, events[..|events| - 1]);
      if events[|events| - 1].None? {
        assert s <= s + p + "\n";
      }
    }
  }

  /** The unit test's scenario: "woah" is not logged until the line ends,
      and then exactly "woah\n" is. */
  method StreamThenEndLine() returns (before: string, after: string)
    ensures before == "" && after == "woah\n"
  {
    var c := new Console();
    c.Write("woah");
    before := c.Log();
    c.EndLine();
    after := c.Log();
  }
}
