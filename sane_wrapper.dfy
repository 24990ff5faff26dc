// The thin layer over the SANE library (src/inputs/sane/sane_wrapper.cpp):
// conversion of SANE's enumeration codes, the cached current device, the
// decoding of option descriptors and their value constraints (SANE Standard
// version 1, section 4.2.9), and the read loop that fills a scan buffer.
// Every call into the library is an input: its status and its results.
module SaneWrapper {
  import opened Wrappers
  import opened SaneFormats

  // SANE_Value_Type codes.
  const TYPE_BOOL: int := 0
  const TYPE_INT: int := 1
  const TYPE_FIXED: int := 2
  const TYPE_STRING: int := 3
  const TYPE_BUTTON: int := 4
  const TYPE_GROUP: int := 5

  // SANE_Constraint_Type codes.
  const CONSTRAINT_NONE: int := 0
  const CONSTRAINT_RANGE: int := 1
  const CONSTRAINT_WORD_LIST: int := 2
  const CONSTRAINT_STRING_LIST: int := 3

  // SANE_Status codes used here.
  const STATUS_GOOD: int := 0
  const STATUS_EOF: int := 5

  // SANE capability bits.
  const CAP_SOFT_SELECT: bv32 := 1
  const CAP_INACTIVE: bv32 := 32

  const INT32_MAX: int := 0x7FFF_FFFF

  predicate Has(flags: bv32, bit: bv32) { flags & bit != 0 }

  /** SANE_OPTION_IS_SETTABLE: the software may set the option. */
  predicate Settable(cap: bv32) { Has(cap, CAP_SOFT_SELECT) }

  // ---- sane_to_enum ----

  datatype OptionType = TBool | TInt | TFixed | TString | TButton | TGroup
  datatype Unit = NoUnit | Pixel | Bit | Mm | Dpi | Percent | Microsecond
  datatype Constraint = NoConstraint | Range | IntList | StringList

  /** The SANE code of each option type, constraint kind and frame kind. */
  function TypeCode(t: OptionType): int
  {
    match t
    case TBool => 0
    case TInt => 1
    case TFixed => 2
    case TString => 3
    case TButton => 4
    case TGroup => 5
  }

  function UnitCode(u: Unit): int
  {
    match u
    case NoUnit => 0
    case Pixel => 1
    case Bit => 2
    case Mm => 3
    case Dpi => 4
    case Percent => 5
    case Microsecond => 6
  }

  function ConstraintCode(c: Constraint): int
  {
    match c
    case NoConstraint => 0
    case Range => 1
    case IntList => 2
    case StringList => 3
  }

  function FrameCode(c: SaneChannels): int
  {
    match c
    case Gray => 0
    case RGB => 1
    case Red => 2
    case Green => 3
    case Blue => 4
  }

  /** Value type conversion; an unknown code falls back to TBool. */
  function TypeOf(code: int): (r: OptionType)
    ensures 0 <= code <= 5 ==> TypeCode(r) == code
    ensures !(0 <= code <= 5) ==> r == TBool
  {
    if code == 0 then TBool
    else if code == 1 then TInt
    else if code == 2 then TFixed
    else if code == 3 then TString
    else if code == 4 then TButton
    else if code == 5 then TGroup
    else TBool
  }

  /** Unit conversion; the source returns nothing for an unknown code,
      which is None here. */
  function UnitOf(code: int): (r: Option<Unit>)
    ensures r.Some? <==> 0 <= code <= 6
    ensures r.Some? ==> UnitCode(r.value) == code
  {
    if code == 0 then Some(NoUnit)
    else if code == 1 then Some(Pixel)
    else if code == 2 then Some(Bit)
    else if code == 3 then Some(Mm)
    else if code == 4 then Some(Dpi)
    else if code == 5 then Some(Percent)
    else if code == 6 then Some(Microsecond)
    else None
  }

  /** Frame conversion; an unknown code falls back to Gray. */
  function ChannelsOf(code: int): (r: SaneChannels)
    ensures 0 <= code <= 4 ==> FrameCode(r) == code
    ensures !(0 <= code <= 4) ==> r == Gray
  {
    if code == 0 then Gray
    else if code == 1 then RGB
    else if code == 2 then Red
    else if code == 3 then Green
    else if code == 4 then Blue
    else Gray
  }

  /** Constraint conversion; an unknown code falls back to None. */
  function ConstraintOf(code: int): (r: Constraint)
    ensures 0 <= code <= 3 ==> ConstraintCode(r) == code
    ensures !(0 <= code <= 3) ==> r == NoConstraint
  {
    if code == 0 then NoConstraint
    else if code == 1 then Range
    else if code == 2 then IntList
    else if code == 3 then StringList
    else NoConstraint
  }

  /** Each conversion inverts the code table: every enumerator survives
      the round trip through its code. */
  lemma ConversionsInvertCodes(t: OptionType, u: Unit, f: SaneChannels, c: Constraint)
    ensures TypeOf(TypeCode(t)) == t
    ensures UnitOf(UnitCode(u)) == Some(u)
    ensures ChannelsOf(FrameCode(f)) == f
    ensures ConstraintOf(ConstraintCode(c)) == c
  {
  }

  // ---- the current device ----

  /** An opened device: its name and whether opening it succeeded. */
  datatype Handle = Handle(name: string, valid: bool)

  /** `s_current_index` and `s_current_device`. */
  datatype DeviceState = DeviceState(index: int, device: Option<Handle>)

  /** There is a current device and it opened. */
  predicate Usable(s: DeviceState)
  {
    s.device.Some? && s.device.value.valid
  }

  /** `set_current_device(index, name)`: reopen only for a different index,
      then report whether the device is valid. With the same index and no
      device the source dereferences null, an error here. */
  function Selected(s: DeviceState, index: int, name: string, opens: bool): (r: (Result<bool>, DeviceState))
  {
    var t := if s.index != index then DeviceState(index, Some(Handle(name, opens))) else s;
    match t.device
    case Some(h) => (Ok(h.valid), t)
    case None => (Err("null current device"), t)
  }

  /** `clear_current_device`: drops the device but keeps the index. */
  function Cleared(s: DeviceState): (r: DeviceState)
    ensures r.index == s.index && r.device == None
  {
    s.(device := None)
  }

  /** The evidently intended clearing: the index is forgotten too. */
  function ClearedIntended(s: DeviceState): (r: DeviceState)
    ensures r.device == None && r.index == -1
  {
    DeviceState(-1, None)
  }

  /** Selecting a different index always opens that device; selecting the
      same index again keeps the open device and never reopens it. */
  lemma SelectReopensOnlyOnChange(s: DeviceState, index: int, name: string, opens: bool)
    ensures s.index != index ==> Selected(s, index, name, opens) == (Ok(opens), DeviceState(index, Some(Handle(name, opens))))
    ensures s.index == index && s.device.Some? ==> Selected(s, index, name, opens) == (Ok(s.device.value.valid), s)
  {
  }

  /** As written: after clearing, selecting the device that was current
      finds no device to ask. */
  lemma ClearedReselectFails(s: DeviceState, name: string, opens: bool)
    ensures Selected(Cleared(s), s.index, name, opens).0.Err?
    ensures Selected(Cleared(s), s.index, name, opens).1.device == None
  {
  }

  /** Corrected: after clearing, selecting any device index opens it. */
  lemma ClearedIntendedReselectOpens(s: DeviceState, index: int, name: string, opens: bool)
    requires 0 <= index
    ensures Selected(ClearedIntended(s), index, name, opens) == (Ok(opens), DeviceState(index, Some(Handle(name, opens))))
  {
  }

  // ---- option descriptors ----

  /** The parts of a SANE_Option_Descriptor the wrapper chunks. A word list
      is the raw words, the first of them the count; a string list is the
      raw array of C strings, None standing for its NULL terminator. */
  datatype Descriptor = Descriptor(name: string, title: string, desc: string, vtype: int, unit: int,
                                   size: int, cap: bv32, constraintType: int,
                                   range: Option<(int, int)>, wordList: Option<seq<int>>,
                                   stringList: Option<seq<Option<string>>>)

  /** What the standard guarantees of a descriptor: the count of a word
      list is within the list, and a string list is NULL-terminated. */
  predicate WellFormed(d: Descriptor)
  {
    (d.wordList.Some? ==> |d.wordList.value| >= 1 && d.wordList.value[0] < |d.wordList.value|) &&
    (d.stringList.Some? ==> None in d.stringList.value)
  }

  /** The outcome of reading an option's current value. */
  datatype Fetched = Fetched(status: int, intValue: int, text: string)

  datatype SaneOption = SaneOption(index: int, name: string, title: string, desc: string,
                                   otype: OptionType, unit: Option<Unit>, size: int, cap: bv32,
                                   readOnly: bool, iValue: int, sValue: string,
                                   constraint: Constraint, iMinimum: int, iMaximum: int,
                                   intList: seq<int>, stringList: seq<string>)

  /** The words after the count, as many as the count says. */
  function WordValues(words: seq<int>): (r: seq<int>)
    requires |words| >= 1 && words[0] < |words|
    ensures words[0] <= 0 ==> r == []
    ensures words[0] > 0 ==> |r| == words[0] && forall k :: 0 <= k < |r| ==> r[k] == words[k + 1]
  {
    if words[0] <= 0 then [] else words[1..words[0] + 1]
  }

  /** The index of the NULL terminator. */
  function Terminator(list: seq<Option<string>>): (n: nat)
    requires None in list
    ensures n < |list| && list[n] == None
    ensures forall k :: 0 <= k < n ==> list[k].Some?
  {
    if list[0] == None then 0 else 1 + Terminator(list[1..])
  }

  /** The strings before the terminator, in order. */
  function StringValues(list: seq<Option<string>>): (r: seq<string>)
    requires None in list
    ensures |r| == Terminator(list)
    ensures forall k :: 0 <= k < |r| ==> list[k] == Some(r[k])
  {
    seq(Terminator(list), k requires 0 <= k < Terminator(list) => list[k].value)
  }

  /** The word-list loop. */
  method DecodeWordList(words: seq<int>) returns (values: seq<int>)
    requires |words| >= 1 && words[0] < |words|
    ensures values == WordValues(words)
  {
    values := [];
    var sz := words[0];
    var i := 1;
    while i <= sz
      invariant 1 <= i <= if sz >= 1 then sz + 1 else 1
      invariant values == words[1..i]
    {
      values := values + [words[i]];
      i := i + 1;
    }
  }

  /** The string-list loop: walks the entries up to NULL. */
  method DecodeStringList(list: seq<Option<string>>) returns (values: seq<string>)
    requires None in list
    ensures values == StringValues(list)
  {
    values := [];
    var n := Terminator(list);
    var k := 0;
    while list[k] != None
      invariant 0 <= k <= n
      invariant |values| == k && forall j :: 0 <= j < k ==> list[j] == Some(values[j])
      decreases n - k
    {
      values := values + [list[k].value];
      k := k + 1;
    }
  }

  /** The current value the wrapper records: strings are read unless the
      option is inactive ("INACTIVE"), single-word booleans and integers
      are read when active, anything else keeps 0 and "". A failed read
      throws. */
  function OptionValue(d: Descriptor, f: Fetched): (r: Result<(int, string)>)
    ensures r.Err? ==> f.status != STATUS_GOOD && !Has(d.cap, CAP_INACTIVE)
    ensures d.vtype == TYPE_STRING && Has(d.cap, CAP_INACTIVE) ==> r == Ok((0, "INACTIVE"))
    ensures d.vtype != TYPE_STRING && (d.size != 4 || Has(d.cap, CAP_INACTIVE)) ==> r == Ok((0, ""))
  {
    if d.vtype == TYPE_STRING then
      if !Has(d.cap, CAP_INACTIVE) then
        if f.status != STATUS_GOOD then Err("Failed to get SANE device option string: " + d.name)
        else Ok((0, f.text))
      else Ok((0, "INACTIVE"))
    else if d.size == 4 && (d.vtype == TYPE_BOOL || d.vtype == TYPE_INT) && !Has(d.cap, CAP_INACTIVE) then
      if f.status != STATUS_GOOD then Err("Failed to get SANE device option integer: " + d.name)
      else Ok((f.intValue, ""))
    else Ok((0, ""))
  }

  /** The range the wrapper records: the descriptor's only for a range
      constraint that has one, else [0, INT32_MAX]. */
  function Bounds(d: Descriptor): (r: (int, int))
    ensures !(d.constraintType == CONSTRAINT_RANGE && d.range.Some?) ==> r == (0, INT32_MAX)
  {
    if d.constraintType == CONSTRAINT_RANGE && d.range.Some? then (d.range.value.0, d.range.value.1)
    else (0, INT32_MAX)
  }

  /** The option record for descriptor i, or None when its name is empty. */
  function OptionFor(i: int, d: Descriptor, f: Fetched): (r: Result<Option<SaneOption>>)
    requires WellFormed(d)
    ensures r.Ok? && r.value.Some? ==> |r.value.value.name| > 0 && r.value.value.index == i && r.value.value.name == d.name
    ensures r.Ok? && r.value.Some? ==> r.value.value.readOnly == !Settable(d.cap)
    ensures r.Ok? && d.name == "" ==> r.value == None
  {
    match OptionValue(d, f)
    case Err(msg) => Err(msg)
    case Ok(value) =>
      var words := if d.constraintType == CONSTRAINT_WORD_LIST && d.wordList.Some? then WordValues(d.wordList.value) else [];
      var strings := if d.constraintType == CONSTRAINT_STRING_LIST && d.stringList.Some? then StringValues(d.stringList.value) else [];
      var (lo, hi) := Bounds(d);
      if |d.name| > 0 then
        Ok(Some(SaneOption(i, d.name, d.title, d.desc, TypeOf(d.vtype), UnitOf(d.unit), d.size, d.cap,
                           !Settable(d.cap), value.0, value.1, ConstraintOf(d.constraintType), lo, hi,
                           words, strings)))
      else Ok(None)
  }

  /** The options of descriptors 0..n-1, or the first failure. */
  function OptionsOf(descs: seq<Descriptor>, fetched: seq<Fetched>): (r: Result<seq<SaneOption>>)
    requires |descs| == |fetched|
    requires forall k :: 0 <= k < |descs| ==> WellFormed(descs[k])
  {
    if descs == [] then Ok([])
    else
      var n := |descs| - 1;
      match OptionsOf(descs[..n], fetched[..n])
      case Err(msg) => Err(msg)
      case Ok(before) =>
        match OptionFor(n, descs[n], fetched[n])
        case Err(msg) => Err(msg)
        case Ok(None) => Ok(before)
        case Ok(Some(o)) => Ok(before + [o])
  }

  /** Option `o` describes descriptor `o.index` of `descs`: it is in range,
      carries that descriptor's (non-empty) name, and is read-only exactly
      when the descriptor is not settable. */
  predicate Describes(descs: seq<Descriptor>, o: SaneOption)
  {
    0 <= o.index < |descs| && |o.name| > 0 && o.name == descs[o.index].name &&
    o.readOnly == !Settable(descs[o.index].cap)
  }

  /** The options come out in descriptor order with strictly increasing
      indices, each describing the descriptor it was made from. */
  lemma {:induction false} OptionsOrdered(descs: seq<Descriptor>, fetched: seq<Fetched>)
    requires |descs| == |fetched|
    requires forall k :: 0 <= k < |descs| ==> WellFormed(descs[k])
    requires OptionsOf(descs, fetched).Ok?
    ensures var os := OptionsOf(descs, fetched).value;
            forall k :: 0 <= k < |os| ==> Describes(descs, os[k])
    ensures var os := OptionsOf(descs, fetched).value;
            forall j, k :: 0 <= j < k < |os| ==> os[j].index < os[k].index
  {
    if descs != [] {
      var n := |descs| - 1;
      var pre, pf := descs[..n], fetched[..n];
      assert forall k :: 0 <= k < n ==> pre[k] == descs[k];
      OptionsOrdered(pre, pf);
      var before := OptionsOf(pre, pf).value;
      assert forall k :: 0 <= k < |before| ==> Describes(descs, before[k]) && before[k].index < n by {
        forall k | 0 <= k < |before|
          ensures Describes(descs, before[k]) && before[k].index < n
        {
          assert Describes(pre, before[k]);
        }
      }
      var r := OptionFor(n, descs[n], fetched[n]);
      if r.value.Some? {
        var o := r.value.value;
        assert Describes(descs, o);
        var os := before + [o];
        assert OptionsOf(descs, fetched).value == os;
        assert forall k :: 0 <= k < |os| ==> Describes(descs, os[k]) by {
          forall k | 0 <= k < |os| ensures Describes(descs, os[k]) {
            if k < |before| { assert os[k] == before[k]; } else { assert os[k] == o; }
          }
        }
      }
    }
  }

  // ---- reading a scan ----

  /** One `sane_read`: its status and the bytes it delivered. */
  datatype Read = Read(status: int, bytes: seq<bv8>)

  /** The device never delivers more than asked for, and the scan ends:
      the buffer fills or a read reports something other than GOOD. */
  predicate Completes(size: nat, total: nat, chunks: seq<Read>)
    decreases chunks
  {
    total == size ||
    (chunks != [] && total + |chunks[0].bytes| <= size &&
     (chunks[0].status != STATUS_GOOD || Completes(size, total + |chunks[0].bytes|, chunks[1..])))
  }

  /** The end state of the read loop: the last status, the buffer, the bytes
      read, and the request size passed to each read. */
  datatype Scan = Scan(status: int, buffer: seq<bv8>, total: nat, requests: seq<nat>)

  /** The read loop from `total` bytes on. A full buffer stops it with the
      status still GOOD (the remaining data is drained and dropped). */
  function ReadFrom(buffer: seq<bv8>, total: nat, chunks: seq<Read>): (r: Scan)
    requires total <= |buffer| && Completes(|buffer|, total, chunks)
    decreases chunks
  {
    if total == |buffer| then Scan(STATUS_GOOD, buffer, total, [])
    else
      var read := chunks[0];
      var next := total + |read.bytes|;
      var written := buffer[..total] + read.bytes + buffer[next..];
      var rest := if read.status == STATUS_GOOD then ReadFrom(written, next, chunks[1..])
                  else Scan(read.status, written, next, []);
      Scan(rest.status, rest.buffer, rest.total, [|buffer| - total] + rest.requests)
  }

  /** One step of the loop, unfolded. */
  lemma ReadStep(buffer: seq<bv8>, total: nat, chunks: seq<Read>)
    requires total < |buffer| && Completes(|buffer|, total, chunks)
    ensures chunks != [] && total + |chunks[0].bytes| <= |buffer|
    ensures var next := total + |chunks[0].bytes|;
            var written := buffer[..total] + chunks[0].bytes + buffer[next..];
            |written| == |buffer| &&
            (chunks[0].status == STATUS_GOOD ==>
               Completes(|written|, next, chunks[1..]) &&
               var s := ReadFrom(written, next, chunks[1..]);
               ReadFrom(buffer, total, chunks) == Scan(s.status, s.buffer, s.total, [|buffer| - total] + s.requests)) &&
            (chunks[0].status != STATUS_GOOD ==>
               ReadFrom(buffer, total, chunks) == Scan(chunks[0].status, written, next, [|buffer| - total]))
  {
  }

  /** The buffer keeps its size and never overflows, at most one request is
      made per read, and the loop stops with GOOD only on a full buffer. */
  lemma {:induction false} ReadFromBounded(buffer: seq<bv8>, total: nat, chunks: seq<Read>)
    requires total <= |buffer| && Completes(|buffer|, total, chunks)
    decreases chunks
    ensures var s := ReadFrom(buffer, total, chunks);
            |s.buffer| == |buffer| && total <= s.total <= |buffer| && |s.requests| <= |chunks|
    ensures ReadFrom(buffer, total, chunks).status == STATUS_GOOD ==> ReadFrom(buffer, total, chunks).total == |buffer|
  {
    if total < |buffer| {
      ReadStep(buffer, total, chunks);
      var next := total + |chunks[0].bytes|;
      if chunks[0].status == STATUS_GOOD {
        ReadFromBounded(buffer[..total] + chunks[0].bytes + buffer[next..], next, chunks[1..]);
      }
    }
  }

  /** The first request asks for the whole remaining capacity, each later
      one for what the previous read left, and every request is positive. */
  lemma {:induction false} ReadFromRequests(buffer: seq<bv8>, total: nat, chunks: seq<Read>)
    requires total <= |buffer| && Completes(|buffer|, total, chunks)
    decreases chunks
    ensures var rs := ReadFrom(buffer, total, chunks).requests;
            |rs| <= |chunks| && (rs != [] ==> rs[0] == |buffer| - total) &&
            (forall k :: 0 <= k < |rs| ==> rs[k] > 0) &&
            (forall k :: 1 <= k < |rs| ==> rs[k] == rs[k - 1] - |chunks[k - 1].bytes|)
  {
    if total < |buffer| {
      ReadStep(buffer, total, chunks);
      var next := total + |chunks[0].bytes|;
      if chunks[0].status == STATUS_GOOD {
        var written := buffer[..total] + chunks[0].bytes + buffer[next..];
        ReadFromRequests(written, next, chunks[1..]);
        ReadFromBounded(written, next, chunks[1..]);
      }
    }
  }

  /** The bytes the reads delivered, in order. */
  function Delivered(chunks: seq<Read>): seq<bv8>
  {
    if chunks == [] then [] else chunks[0].bytes + Delivered(chunks[1..])
  }

  /** What was read before stays and the rest of the buffer after the
      last byte read is untouched. */
  lemma {:induction false} ReadFromKeeps(buffer: seq<bv8>, total: nat, chunks: seq<Read>)
    requires total <= |buffer| && Completes(|buffer|, total, chunks)
    decreases chunks
    ensures var s := ReadFrom(buffer, total, chunks);
            total <= s.total <= |s.buffer| == |buffer| &&
            s.buffer[..total] == buffer[..total] && s.buffer[s.total..] == buffer[s.total..]
  {
    ReadFromBounded(buffer, total, chunks);
    if total < |buffer| {
      ReadStep(buffer, total, chunks);
      var next := total + |chunks[0].bytes|;
      var written := buffer[..total] + chunks[0].bytes + buffer[next..];
      if chunks[0].status == STATUS_GOOD {
        ReadFromKeeps(written, next, chunks[1..]);
        var s := ReadFrom(written, next, chunks[1..]);
        assert s.buffer[..total] == s.buffer[..next][..total];
        assert written[..next][..total] == buffer[..total];
        assert s.buffer[s.total..] == written[s.total..];
        assert written[s.total..] == buffer[s.total..] by {
          assert written[s.total..] == written[next..][s.total - next..];
        }
      }
    }
  }

  /** The delivered bytes follow what was read before, in order. */
  lemma {:induction false} ReadFromDelivers(buffer: seq<bv8>, total: nat, chunks: seq<Read>)
    requires total <= |buffer| && Completes(|buffer|, total, chunks)
    decreases chunks
    ensures var s := ReadFrom(buffer, total, chunks);
            total <= s.total <= |s.buffer| && |s.requests| <= |chunks| &&
            s.buffer[total..s.total] == Delivered(chunks[..|s.requests|])
  {
    ReadFromBounded(buffer, total, chunks);
    if total < |buffer| {
      ReadStep(buffer, total, chunks);
      var read := chunks[0];
      var next := total + |read.bytes|;
      var written := buffer[..total] + read.bytes + buffer[next..];
      assert written[total..next] == read.bytes;
      if read.status == STATUS_GOOD {
        ReadFromDelivers(written, next, chunks[1..]);
        ReadFromKeeps(written, next, chunks[1..]);
        var s := ReadFrom(written, next, chunks[1..]);
        var m := |s.requests|;
        assert Delivered(chunks[..m + 1]) == read.bytes + Delivered(chunks[1..][..m]) by {
          assert chunks[..m + 1] == [read] + chunks[1..][..m];
        }
        assert s.buffer[total..next] == read.bytes by {
          assert s.buffer[total..next] == s.buffer[..next][total..];
          assert written[total..next] == written[..next][total..];
        }
        assert s.buffer[total..s.total] == read.bytes + Delivered(chunks[1..][..m]) by {
          assert s.buffer[total..s.total] == s.buffer[total..next] + s.buffer[next..s.total];
        }
      } else {
        assert chunks[..1] == [read];
        assert Delivered(chunks[..1]) == read.bytes + Delivered([]);
      }
    } else {
      assert chunks[..0] == [];
    }
  }

  /** The loop's outcome when it resumes at `total` with `requests` made. */
  function Resumed(buffer: seq<bv8>, total: nat, chunks: seq<Read>, requests: seq<nat>): Scan
    requires total <= |buffer| && Completes(|buffer|, total, chunks)
  {
    var s := ReadFrom(buffer, total, chunks);
    Scan(s.status, s.buffer, s.total, requests + s.requests)
  }

  lemma ResumedStep(buffer: seq<bv8>, total: nat, chunks: seq<Read>, requests: seq<nat>)
    requires total < |buffer| && Completes(|buffer|, total, chunks)
    ensures chunks != [] && total + |chunks[0].bytes| <= |buffer|
    ensures var next := total + |chunks[0].bytes|;
            var written := buffer[..total] + chunks[0].bytes + buffer[next..];
            var made := requests + [|buffer| - total];
            |written| == |buffer| &&
            (chunks[0].status == STATUS_GOOD ==>
               Completes(|written|, next, chunks[1..]) &&
               Resumed(buffer, total, chunks, requests) == Resumed(written, next, chunks[1..], made)) &&
            (chunks[0].status != STATUS_GOOD ==>
               Resumed(buffer, total, chunks, requests) == Scan(chunks[0].status, written, next, made))
  {
    ReadStep(buffer, total, chunks);
    var next := total + |chunks[0].bytes|;
    var written := buffer[..total] + chunks[0].bytes + buffer[next..];
    if chunks[0].status == STATUS_GOOD {
      var s := ReadFrom(written, next, chunks[1..]);
      assert requests + ([|buffer| - total] + s.requests) == requests + [|buffer| - total] + s.requests;
    }
  }

  class Devices {
    var state: DeviceState

    /** The index starts at -1 with no device. */
    constructor ()
      ensures state == DeviceState(-1, None)
    {
      state := DeviceState(-1, None);
    }

    /** `current_device_valid`. */
    predicate CurrentDeviceValid()
      reads this
    {
      Usable(state)
    }

    /** `set_current_device`; `opens` is whether `sane_open` succeeds. */
    method SetCurrentDevice(index: int, name: string, opens: bool) returns (r: Result<bool>)
      modifies this
      ensures (r, state) == Selected(old(state), index, name, opens)
    {
      if state.index != index {
        state := DeviceState(-1, None);
        state := DeviceState(index, Some(Handle(name, opens)));
      }
      match state.device
      case Some(h) => r := Ok(h.valid);
      case None => r := Err("null current device");
    }

    /** `clear_current_device`. */
    method ClearCurrentDevice()
      modifies this
      ensures state == Cleared(old(state))
    {
      state := state.(device := None);
    }

    /** `clear_current_device` as evidently intended. */
    method ClearCurrentDeviceIntended()
      modifies this
      ensures state == ClearedIntended(old(state))
    {
      state := DeviceState(-1, None);
    }

    /** `options`: the descriptors' options, or an exception without a
        valid device or when reading a value fails. */
    method Options(descs: seq<Descriptor>, fetched: seq<Fetched>) returns (r: Result<seq<SaneOption>>)
      requires |descs| == |fetched|
      requires forall k :: 0 <= k < |descs| ==> WellFormed(descs[k])
      ensures !CurrentDeviceValid() ==> r == Err("Invalid SANE device in options.")
      ensures CurrentDeviceValid() ==> r == OptionsOf(descs, fetched)
    {
      if !CurrentDeviceValid() {
        return Err("Invalid SANE device in options.");
      }
      var options: seq<SaneOption> := [];
      var i := 0;
      while i < |descs|
        invariant 0 <= i <= |descs|
        invariant OptionsOf(descs[..i], fetched[..i]) == Ok(options)
      {
        var d := descs[i];
        OptionsStep(descs, fetched, i, options);
        var value := OptionValue(d, fetched[i]);
        if value.Err? {
          OptionsErrStays(descs, fetched, i + 1);
          return Err(value.msg);
        }
        var words: seq<int> := [];
        if d.constraintType == CONSTRAINT_WORD_LIST && d.wordList.Some? {
          words := DecodeWordList(d.wordList.value);
        }
        var strings: seq<string> := [];
        if d.constraintType == CONSTRAINT_STRING_LIST && d.stringList.Some? {
          strings := DecodeStringList(d.stringList.value);
        }
        var (lo, hi) := Bounds(d);
        if |d.name| > 0 {
          options := options + [SaneOption(i, d.name, d.title, d.desc, TypeOf(d.vtype), UnitOf(d.unit), d.size,
                                           d.cap, !Settable(d.cap), value.value.0, value.value.1,
                                           ConstraintOf(d.constraintType), lo, hi, words, strings)];
        }
        i := i + 1;
      }
      assert descs[..i] == descs && fetched[..i] == fetched;
      r := Ok(options);
    }

    /** `set_option`: changes nothing here; `status` is what the library
        returned. */
    method SetOption(index: int, name: string, status: int) returns (r: Result<()>)
      ensures !CurrentDeviceValid() ==> r == Err("Invalid SANE device in set_option.")
      ensures CurrentDeviceValid() && status == STATUS_GOOD ==> r == Ok(())
      ensures CurrentDeviceValid() && status != STATUS_GOOD ==> r == Err("Failed to set SANE device option: " + name)
    {
      if !CurrentDeviceValid() {
        return Err("Invalid SANE device in set_option.");
      }
      if status != STATUS_GOOD {
        return Err("Failed to set SANE device option: " + name);
      }
      r := Ok(());
    }

    /** `format`: the device's frame parameters as a SaneFormat. */
    method Format(status: int, frame: int, bytesPerLine: int, pixelsPerLine: int, lines: int, depth: int)
      returns (r: Result<SaneFormat>)
      ensures !CurrentDeviceValid() ==> r == Err("Invalid SANE device in format.")
      ensures CurrentDeviceValid() && status != STATUS_GOOD ==> r.Err?
      ensures CurrentDeviceValid() && status == STATUS_GOOD ==>
              r == Ok(SaneFormat(ChannelsOf(frame), bytesPerLine, pixelsPerLine, lines, depth))
    {
      if !CurrentDeviceValid() {
        return Err("Invalid SANE device in format.");
      }
      if status != STATUS_GOOD {
        return Err("Failed to get SANE device parameters: " + state.device.value.name);
      }
      r := Ok(SaneFormat(ChannelsOf(frame), bytesPerLine, pixelsPerLine, lines, depth));
    }

    /** `read_image`: start the scan, read until the buffer is full or the
        device stops, and throw on a final status other than GOOD or EOF.
        Returns the buffer and the size of each request. */
    method ReadImage(buffer: seq<bv8>, started: bool, chunks: seq<Read>)
      returns (r: Result<seq<bv8>>, requests: seq<nat>)
      requires Completes(|buffer|, 0, chunks)
      ensures !CurrentDeviceValid() ==> r == Err("Invalid SANE device in read_image.")
      ensures CurrentDeviceValid() && !started ==> r == Err("SANE device did not start.")
      ensures CurrentDeviceValid() && started ==>
              (var s := ReadFrom(buffer, 0, chunks);
               requests == s.requests &&
               (s.status == STATUS_GOOD || s.status == STATUS_EOF ==> r == Ok(s.buffer)) &&
               (s.status != STATUS_GOOD && s.status != STATUS_EOF ==> r.Err?))
    {
      requests := [];
      if !CurrentDeviceValid() {
        return Err("Invalid SANE device in read_image."), [];
      }
      if !started {
        return Err("SANE device did not start."), [];
      }
      var buf := buffer;
      var total := 0;
      var status := STATUS_GOOD;
      var k := 0;
      var done := false;
      while !done
        invariant 0 <= k <= |chunks| && total <= |buf| == |buffer|
        invariant done ==> ReadFrom(buffer, 0, chunks) == Scan(status, buf, total, requests)
        invariant !done ==> status == STATUS_GOOD && Completes(|buf|, total, chunks[k..])
        invariant !done ==> ReadFrom(buffer, 0, chunks) == Resumed(buf, total, chunks[k..], requests)
        decreases !done, |chunks| - k
      {
        if |buf| - total <= 0 {
          done := true;
        } else {
          ResumedStep(buf, total, chunks[k..], requests);
          assert chunks[k..][1..] == chunks[k + 1..];
          var read := chunks[k];
          var request := |buf| - total;
          var next := total + |read.bytes|;
          buf := buf[..total] + read.bytes + buf[next..];
          total := next;
          status := read.status;
          requests := requests + [request];
          k := k + 1;
          if status != STATUS_GOOD {
            done := true;
          }
        }
      }
      if status != STATUS_EOF && status != STATUS_GOOD {
        return Err("SANE error while reading"), requests;
      }
      r := Ok(buf);
    }
  }

  /** The options of one more descriptor. */
  lemma OptionsStep(descs: seq<Descriptor>, fetched: seq<Fetched>, i: nat, options: seq<SaneOption>)
    requires |descs| == |fetched| && i < |descs|
    requires forall k :: 0 <= k < |descs| ==> WellFormed(descs[k])
    requires OptionsOf(descs[..i], fetched[..i]) == Ok(options)
    ensures OptionsOf(descs[..i + 1], fetched[..i + 1]) ==
            match OptionFor(i, descs[i], fetched[i])
            case Err(msg) => Err(msg)
            case Ok(None) => Ok(options)
            case Ok(Some(o)) => Ok(options + [o])
  {
    assert descs[..i + 1][..i] == descs[..i] && fetched[..i + 1][..i] == fetched[..i];
  }

  lemma {:induction false} OptionsErrStays(descs: seq<Descriptor>, fetched: seq<Fetched>, n: nat)
    requires |descs| == |fetched| && 1 <= n <= |descs|
    requires forall k :: 0 <= k < |descs| ==> WellFormed(descs[k])
    requires OptionsOf(descs[..n], fetched[..n]).Err?
    ensures OptionsOf(descs, fetched) == OptionsOf(descs[..n], fetched[..n])
    decreases |descs| - n
  {
    if n < |descs| {
      assert descs[..n + 1][..n] == descs[..n] && fetched[..n + 1][..n] == fetched[..n];
      OptionsErrStays(descs, fetched, n + 1);
    } else {
      assert descs[..n] == descs && fetched[..n] == fetched;
    }
  }
}
