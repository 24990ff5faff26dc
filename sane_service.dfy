// The scanner service (src/inputs/sane/sane_service.cpp): turns a device's
// options into node parameters, sends the parameters back as option
// values, chooses the upload format of a scan and sizes its buffer.
module SaneService {
  import opened Wrappers
  import opened Strings
  import opened SaneFormats
  import opened SaneWrapper
  import HostCache

  /** A parameter value, of the parameter's own type. */
  datatype Val = BoolVal(b: bool) | IntVal(i: int) | StringVal(s: string)

  /** A parameter the service creates for an option: its name, tags, UI
      order, default, the bounds of a "raw" integer and the enumeration of
      an "enum" one. The parameter's type is that of its default. */
  datatype DynParam = DynParam(name: string, tags: set<string>, order: int, default: Val,
                               minimum: Option<int>, maximum: Option<int>,
                               enumValues: seq<int>, enumNames: seq<string>)

  /** A freshly made parameter: no order, bounds or enumeration yet. */
  function Fresh(name: string, tags: set<string>, default: Val): DynParam
  {
    DynParam(name, tags, 0, default, None, None, [], [])
  }

  /** The decimal names of an integer list, one per entry. */
  function DecimalNames(values: seq<int>): (r: seq<string>)
    ensures |r| == |values| && forall k :: 0 <= k < |r| ==> r[k] == IntToString(values[k])
  {
    seq(|values|, k requires 0 <= k < |values| => IntToString(values[k]))
  }

  /** The last position of `s` in `list`, or 0 when it is not there. */
  function LastIndexOf(list: seq<string>, s: string): (r: nat)
    ensures s in list ==> r < |list| && list[r] == s && forall j :: r < j < |list| ==> list[j] != s
    ensures s !in list ==> r == 0
  {
    if list == [] then 0
    else if list[|list| - 1] == s then |list| - 1
    else LastIndexOf(list[..|list| - 1], s)
  }

  /** The enumeration-name loop. */
  method EnumNames(values: seq<int>) returns (names: seq<string>)
    ensures names == DecimalNames(values)
  {
    names := [];
    var k := 0;
    while k < |values|
      invariant 0 <= k <= |values|
      invariant |names| == k && forall j :: 0 <= j < k ==> names[j] == IntToString(values[j])
    {
      names := names + [IntToString(values[k])];
      k := k + 1;
    }
  }

  /** The default-position loop: the last entry equal to the current value
      wins. */
  method DefaultIndex(list: seq<string>, s: string) returns (d: nat)
    ensures d == LastIndexOf(list, s)
  {
    d := 0;
    var i := 0;
    while i < |list|
      invariant 0 <= i <= |list|
      invariant d == LastIndexOf(list[..i], s)
    {
      assert list[..i + 1][..i] == list[..i];
      if list[i] == s {
        d := i;
      }
      i := i + 1;
    }
    assert list[..i] == list;
  }

  /** The parameter for one option, or None when the option gets none:
      read-only options, integers wider than 4 bytes, and groups or fixed
      point values. An integer list gives an "enum" whose default is the
      device's current value. */
  function ParamFor(o: SaneOption): (r: Option<DynParam>)
    ensures r.Some? <==> !o.readOnly && (o.otype in {TBool, TString, TButton} || (o.otype == TInt && o.size <= 4))
    ensures r.Some? ==> r.value.name == o.name && r.value.order == o.index + 100
    ensures r.Some? && o.otype == TInt ==> r.value.default == IntVal(o.iValue)
  {
    if o.readOnly then None
    else
      var made: Option<DynParam> :=
        match o.otype
        case TBool => Some(Fresh(o.name, {}, BoolVal(o.iValue != 0)))
        case TInt =>
          if o.size > 4 then None
          else if o.constraint == IntList then
            Some(Fresh(o.name, {"enum"}, IntVal(o.iValue)).(enumValues := o.intList, enumNames := DecimalNames(o.intList)))
          else if o.constraint == Range then
            Some(Fresh(o.name, {"raw"}, IntVal(o.iValue)).(minimum := Some(o.iMinimum), maximum := Some(o.iMaximum)))
          else Some(Fresh(o.name, {"raw"}, IntVal(o.iValue)))
        case TString =>
          if o.constraint == StringList then
            Some(Fresh(o.name, {"enum", "SaneTString"}, IntVal(LastIndexOf(o.stringList, o.sValue))).(enumNames := o.stringList))
          else Some(Fresh(o.name, {}, StringVal(o.sValue)))
        case TButton => Some(Fresh(o.name, {"button"}, BoolVal(false)))
        case _ => None;
      if made.Some? then Some(made.value.(order := o.index + 100)) else None
  }

  /** As written, an integer-list option keeps the parameter's initial
      default of 0 instead of the device's current value. */
  function ParamForAsWritten(o: SaneOption): (r: Option<DynParam>)
    ensures r.Some? <==> ParamFor(o).Some?
    ensures r.Some? ==> r.value.(default := ParamFor(o).value.default) == ParamFor(o).value
    ensures r.Some? && o.otype == TInt && o.constraint == IntList ==> r.value.default == IntVal(0)
    ensures r.Some? && !(o.otype == TInt && o.constraint == IntList) ==> r == ParamFor(o)
  {
    match ParamFor(o)
    case None => None
    case Some(p) =>
      if o.otype == TInt && o.constraint == IntList then Some(p.(default := IntVal(0))) else Some(p)
  }

  /** Which options get a parameter, and what it looks like. */
  lemma ParamForShape(o: SaneOption)
    ensures ParamFor(o).Some? <==>
            !o.readOnly && (o.otype in {TBool, TString, TButton} || (o.otype == TInt && o.size <= 4))
    ensures ParamFor(o).Some? ==> ParamFor(o).value.name == o.name && ParamFor(o).value.order == o.index + 100
    ensures ParamFor(o).Some? && o.otype == TInt && o.constraint == IntList ==>
              var p := ParamFor(o).value;
              "enum" in p.tags && p.enumValues == o.intList && |p.enumNames| == |o.intList| &&
              forall k :: 0 <= k < |p.enumNames| ==> p.enumNames[k] == IntToString(o.intList[k])
    ensures ParamFor(o).Some? && o.otype == TInt && o.constraint == Range ==>
              ParamFor(o).value.minimum == Some(o.iMinimum) && ParamFor(o).value.maximum == Some(o.iMaximum)
    ensures ParamFor(o).Some? && o.otype == TString && o.constraint == StringList ==>
              var p := ParamFor(o).value;
              p.tags == {"enum", "SaneTString"} && p.enumNames == o.stringList && p.enumValues == []
  {
  }

  // ---- the parameter map ----

  /** A std::map from option index to parameter, as its ascending entries. */
  type Entries = seq<(int, DynParam)>

  predicate Ascending(m: Entries)
  {
    forall i, j :: 0 <= i < j < |m| ==> m[i].0 < m[j].0
  }

  predicate HasKey(m: Entries, k: int)
  {
    exists i :: 0 <= i < |m| && m[i].0 == k
  }

  /** `emplace`: adds the entry unless the key is already there. */
  function Emplace(m: Entries, k: int, v: DynParam): (r: Entries)
    requires Ascending(m)
    ensures Ascending(r)
    ensures forall e :: e in r <==> e in m || (e == (k, v) && !HasKey(m, k))
  {
    if m == [] then [(k, v)]
    else if m[0].0 == k then m
    else if k < m[0].0 then
      assert !HasKey(m, k);
      [(k, v)] + m
    else
      assert Ascending(m[1..]);
      var rest := Emplace(m[1..], k, v);
      assert HasKey(m, k) <==> HasKey(m[1..], k) by {
        if HasKey(m, k) {
          var i :| 0 <= i < |m| && m[i].0 == k;
          assert m[1..][i - 1].0 == k;
        }
        if HasKey(m[1..], k) {
          var i :| 0 <= i < |m[1..]| && m[1..][i].0 == k;
          assert m[i + 1].0 == k;
        }
      }
      assert forall e :: e in m <==> e == m[0] || e in m[1..];
      assert Ascending([m[0]] + rest) by {
        forall i | 0 <= i < |rest|
          ensures rest[i].0 > m[0].0
        {
          assert rest[i] in rest;
          if rest[i] in m[1..] {
            var j :| 0 <= j < |m[1..]| && m[1..][j] == rest[i];
            assert m[j + 1] == rest[i];
          }
        }
      }
      [m[0]] + rest
  }

  /** The parameters of a list of options, emplaced in order, as the code
      makes them. */
  function ParamsOf(os: seq<SaneOption>): (r: Entries)
    ensures Ascending(r)
  {
    if os == [] then []
    else
      var before := ParamsOf(os[..|os| - 1]);
      var o := os[|os| - 1];
      match ParamForAsWritten(o)
      case None => before
      case Some(p) => Emplace(before, o.index, p)
  }

  lemma ParamsOfStep(os: seq<SaneOption>, i: nat)
    requires i < |os|
    ensures ParamsOf(os[..i + 1]) == match ParamForAsWritten(os[i])
                                     case None => ParamsOf(os[..i])
                                     case Some(p) => Emplace(ParamsOf(os[..i]), os[i].index, p)
  {
    assert os[..i + 1][..i] == os[..i];
  }

  lemma HasKeyOf(m: Entries, e: (int, DynParam))
    requires e in m
    ensures HasKey(m, e.0)
  {
    var j :| 0 <= j < |m| && m[j] == e;
  }

  /** Each entry is the parameter of the first option with that index that
      gets one, and every such option's index is a key. */
  lemma {:induction false} ParamsOfFirstWins(os: seq<SaneOption>)
    ensures forall k, p :: (k, p) in ParamsOf(os) ==>
              exists i :: 0 <= i < |os| && os[i].index == k && ParamForAsWritten(os[i]) == Some(p) &&
                          forall j :: 0 <= j < i ==> !(os[j].index == k && ParamForAsWritten(os[j]).Some?)
  {
    if os != [] {
      var n := |os| - 1;
      var init := os[..n];
      ParamsOfFirstWins(init);
      var before := ParamsOf(init);
      var after := ParamsOf(os);
      var o := os[n];
      assert forall i :: 0 <= i < n ==> init[i] == os[i];
      forall k, p | (k, p) in after
        ensures exists i :: 0 <= i < |os| && os[i].index == k && ParamForAsWritten(os[i]) == Some(p) &&
                            forall j :: 0 <= j < i ==> !(os[j].index == k && ParamForAsWritten(os[j]).Some?)
      {
        if (k, p) in before {
          var i :| 0 <= i < n && init[i].index == k && ParamForAsWritten(init[i]) == Some(p) &&
                   forall j :: 0 <= j < i ==> !(init[j].index == k && ParamForAsWritten(init[j]).Some?);
          assert os[i] == init[i];
        } else {
          assert ParamForAsWritten(o) == Some(p) && k == o.index && !HasKey(before, k);
          ParamsOfCoversOptions(init);
          forall j | 0 <= j < n
            ensures !(os[j].index == k && ParamForAsWritten(os[j]).Some?)
          {
            assert os[j] == init[j];
          }
        }
      }
    }
  }

  /** Every option that gets a parameter has its index among the keys. */
  lemma {:induction false} ParamsOfCoversOptions(os: seq<SaneOption>)
    ensures forall i :: 0 <= i < |os| && ParamForAsWritten(os[i]).Some? ==> HasKey(ParamsOf(os), os[i].index)
  {
    if os != [] {
      var n := |os| - 1;
      var init := os[..n];
      ParamsOfCoversOptions(init);
      var before := ParamsOf(init);
      var after := ParamsOf(os);
      var o := os[n];
      forall i | 0 <= i < |os| && ParamForAsWritten(os[i]).Some?
        ensures HasKey(after, os[i].index)
      {
        var k := os[i].index;
        if i < n {
          assert init[i] == os[i];
          var j :| 0 <= j < |before| && before[j].0 == k;
          HasKeyOf(after, before[j]);
        } else if HasKey(before, k) {
          var j :| 0 <= j < |before| && before[j].0 == k;
          HasKeyOf(after, before[j]);
        } else {
          HasKeyOf(after, (k, ParamForAsWritten(o).value));
        }
      }
    }
  }

  // ---- sending parameters back ----

  /** The value handed to `set_option`: a word or a string. */
  datatype SetArg = IntArg(i: int) | StringArg(s: string)

  /** What `set_sane_options` sends for one parameter holding `v`: nothing
      for a button that is not pressed; for a SaneTString enumeration the
      value at position `v`, else the name there, else nothing. */
  function Request(p: DynParam, v: Val): (r: Option<SetArg>)
    ensures v.BoolVal? && "button" in p.tags && !v.b ==> r == None
    ensures v.StringVal? ==> r == Some(StringArg(v.s))
    ensures v.IntVal? && "SaneTString" in p.tags ==>
              (r.Some? <==> 0 <= v.i < |p.enumValues| || 0 <= v.i < |p.enumNames|)
  {
    match v
    case BoolVal(b) => if "button" in p.tags && !b then None else Some(IntArg(if b then 1 else 0))
    case IntVal(i) =>
      if "SaneTString" in p.tags then
        if 0 <= i < |p.enumValues| then Some(IntArg(p.enumValues[i]))
        else if 0 <= i < |p.enumNames| then Some(StringArg(p.enumNames[i]))
        else None
      else Some(IntArg(i))
    case StringVal(s) => Some(StringArg(s))
  }

  /** What the device reports for an option, as `set_option` would take it
      back. */
  function DeviceValue(o: SaneOption): Option<SetArg>
  {
    match o.otype
    case TBool => Some(IntArg(if o.iValue != 0 then 1 else 0))
    case TInt => Some(IntArg(o.iValue))
    case TString => Some(StringArg(o.sValue))
    case _ => None
  }

  /** A parameter left at its default sends back exactly the value the
      device reported (for a string list, when the value is one of the
      list's entries), and a button sends nothing until pressed. */
  lemma ParamEchoesDevice(o: SaneOption)
    requires ParamFor(o).Some?
    requires o.otype == TString && o.constraint == StringList ==> o.sValue in o.stringList
    ensures o.otype != TButton ==> Request(ParamFor(o).value, ParamFor(o).value.default) == DeviceValue(o)
    ensures o.otype == TButton ==> Request(ParamFor(o).value, ParamFor(o).value.default) == None
  {
  }

  /** As written, an integer-list option whose current value is listed and
      non-zero sends 0 when left at its default. */
  lemma IntListDefaultIsZero(o: SaneOption)
    requires !o.readOnly && o.otype == TInt && o.size <= 4 && o.constraint == IntList
    requires o.iValue != 0
    ensures var p := ParamForAsWritten(o).value;
            Request(p, p.default) == Some(IntArg(0)) != DeviceValue(o)
  {
  }

  /** The outcome of one `set_option` call: the text logged when it throws. */
  function SetFailure(valid: bool, name: string, status: int): seq<string>
  {
    if !valid then ["Failed to set option on sane device: " + "Invalid SANE device in set_option."]
    else if status != STATUS_GOOD then ["Failed to set option on sane device: " + ("Failed to set SANE device option: " + name)]
    else []
  }

  /** The status the device answers for an option; GOOD unless listed. */
  function StatusFor(statuses: map<int, int>, k: int): int
  {
    if k in statuses then statuses[k] else STATUS_GOOD
  }

  /** The calls `set_sane_options` makes, in map order, and the lines it
      logs for the ones that throw. */
  function Applied(settings: seq<(int, DynParam, Val)>, valid: bool, statuses: map<int, int>)
    : (r: (seq<(int, SetArg)>, seq<string>))
  {
    if settings == [] then ([], [])
    else
      var n := |settings| - 1;
      var (sent, log) := Applied(settings[..n], valid, statuses);
      var (k, p, v) := settings[n];
      match Request(p, v)
      case None => (sent, log)
      case Some(a) => (sent + [(k, a)], log + SetFailure(valid, p.name, StatusFor(statuses, k)))
  }

  lemma AppliedStep(settings: seq<(int, DynParam, Val)>, i: nat, valid: bool, statuses: map<int, int>)
    requires i < |settings|
    ensures var (sent, log) := Applied(settings[..i], valid, statuses);
            var (k, p, v) := settings[i];
            Applied(settings[..i + 1], valid, statuses) ==
              match Request(p, v)
              case None => (sent, log)
              case Some(a) => (sent + [(k, a)], log + SetFailure(valid, p.name, StatusFor(statuses, k)))
  {
    assert settings[..i + 1][..i] == settings[..i];
  }

  /** Every call is for a parameter that has something to send, in map
      order; failures are logged, one line per failed call, and never stop
      the rest: with no usable device every call fails, with all answers
      GOOD none does. */
  lemma {:induction false} AppliedLogsFailures(settings: seq<(int, DynParam, Val)>, valid: bool, statuses: map<int, int>)
    ensures var (sent, log) := Applied(settings, valid, statuses);
            |log| <= |sent| <= |settings| &&
            (!valid ==> |log| == |sent|) &&
            (valid && (forall k :: k in statuses ==> statuses[k] == STATUS_GOOD) ==> log == []) &&
            forall e :: e in sent ==> exists i :: 0 <= i < |settings| && settings[i].0 == e.0 &&
                                                 Request(settings[i].1, settings[i].2) == Some(e.1)
  {
    if settings != [] {
      var n := |settings| - 1;
      AppliedLogsFailures(settings[..n], valid, statuses);
      assert forall i :: 0 <= i < n ==> settings[..n][i] == settings[i];
    }
  }

  // ---- formats ----

  /** `_format`'s choice of upload format for what the device reports:
      none without a positive size; RGB at 8 or 16 bits maps to Rgb8 or
      Rgb16, any other frame at 8 or 16 bits to R8 or R16, and any other
      depth to Rgb8. */
  function UploadFor(f: SaneFormat): (r: Option<UploadFormat>)
    ensures r.None? <==> f.width <= 0 || f.height <= 0
    ensures r.Some? ==> r.value.width == f.width > 0 && r.value.height == f.height > 0
  {
    if f.width <= 0 || f.height <= 0 then None
    else
      var kind :=
        if f.channels == RGB then (if f.depth == 16 then Rgb16 else Rgb8)
        else if f.depth == 8 then R8
        else if f.depth == 16 then R16
        else Rgb8;
      Some(UploadFormat(kind, f.width, f.height))
  }

  /** Channels and bytes per channel of a scan buffer. */
  function Channels(k: UploadKind): nat
  {
    if k == R8 || k == R16 then 1 else 3
  }

  function PixelSize(k: UploadKind): nat
  {
    if k == R16 || k == Rgb16 then 2 else 1
  }

  /** The byte size of the buffer `scan` allocates. */
  function ScanBytes(u: UploadFormat): int
  {
    u.width * u.height * Channels(u.format) * PixelSize(u.format)
  }

  /** At 8 or 16 bits the buffer holds exactly one sample per channel of
      every pixel at the reported depth: three channels for RGB, one for
      any single-channel frame. */
  lemma ScanBytesMatchFrame(f: SaneFormat)
    requires f.width > 0 && f.height > 0 && (f.depth == 8 || f.depth == 16)
    ensures ScanBytes(UploadFor(f).value) ==
            f.width * f.height * (if f.channels == RGB then 3 else 1) * (f.depth / 8)
  {
  }

  /** Any other depth falls back to an 8-bit RGB buffer, whatever the frame. */
  lemma UploadFallback(f: SaneFormat)
    requires f.width > 0 && f.height > 0 && f.depth != 8 && f.depth != 16
    ensures UploadFor(f) == Some(UploadFormat(Rgb8, f.width, f.height))
    ensures ScanBytes(UploadFor(f).value) == f.width * f.height * 3
  {
  }

  /** The frame parameters `sane_get_parameters` reports, with its status. */
  datatype Report = Report(status: int, frame: int, bytesPerLine: int, pixelsPerLine: int, lines: int, depth: int)

  function Reported(r: Report): SaneFormat
  {
    SaneFormat(ChannelsOf(r.frame), r.bytesPerLine, r.pixelsPerLine, r.lines, r.depth)
  }

  /** `_format` after the device is selected and the options are set: no
      format when reading the parameters throws or the size is not
      positive. */
  function FormatFor(valid: bool, report: Report): (r: Option<UploadFormat>)
    ensures r.Some? ==> valid && report.status == STATUS_GOOD && r == UploadFor(Reported(report))
  {
    if !valid || report.status != STATUS_GOOD then None else UploadFor(Reported(report))
  }

  /** The scan fits the 32-bit sizes of the buffer, and the device's reads
      end it. */
  predicate ScanFits(report: Report, chunks: seq<Read>)
  {
    var u := UploadFor(Reported(report));
    u.Some? ==> ScanBytes(u.value) <= HostCache.Int32Max && Completes(ScanBytes(u.value), 0, chunks)
  }

  function Zeroes(n: nat): (r: seq<bv8>)
    ensures |r| == n
  {
    seq(n, _ => 0)
  }

  class Service {
    const wrapper: Devices

    constructor ()
      ensures fresh(wrapper) && wrapper.state == DeviceState(-1, None)
    {
      wrapper := new Devices();
    }

    /** `shutdown`: releases the current device but keeps its index. */
    method Shutdown()
      modifies wrapper
      ensures wrapper.state == Cleared(old(wrapper.state))
    {
      wrapper.ClearCurrentDevice();
    }

    /** `params`: select the device, read its options and make a parameter
        for each, keyed by option index. `names` are the device names,
        `opens` whether opening the device succeeds, `descs` and `fetched`
        its option descriptors and values. */
    method Params(device: int, names: seq<string>, opens: bool, descs: seq<Descriptor>, fetched: seq<Fetched>)
      returns (r: Result<Entries>)
      requires 0 <= device < |names|
      requires |descs| == |fetched| && forall k :: 0 <= k < |descs| ==> WellFormed(descs[k])
      modifies wrapper
      ensures wrapper.state == Selected(old(wrapper.state), device, names[device], opens).1
      ensures Selected(old(wrapper.state), device, names[device], opens).0.Err? ==> r.Err?
      ensures Selected(old(wrapper.state), device, names[device], opens).0.Ok? && !Usable(wrapper.state) ==>
                r == Err("Invalid SANE device in options.")
      ensures Selected(old(wrapper.state), device, names[device], opens).0.Ok? && Usable(wrapper.state) ==>
                r == match OptionsOf(descs, fetched)
                     case Err(msg) => Err(msg)
                     case Ok(os) => Ok(ParamsOf(os))
    {
      var sel := wrapper.SetCurrentDevice(device, names[device], opens);
      if sel.Err? {
        return Err(sel.msg);
      }
      var options := wrapper.Options(descs, fetched);
      if options.Err? {
        return Err(options.msg);
      }
      var os := options.value;
      ghost var st := wrapper.state;
      var entries: Entries := [];
      var i := 0;
      while i < |os|
        invariant 0 <= i <= |os| && entries == ParamsOf(os[..i])
        invariant wrapper.state == st
      {
        var o := os[i];
        ParamsOfStep(os, i);
        i := i + 1;
        if o.readOnly {
          continue;
        }
        var p: DynParam;
        match o.otype {
          case TBool =>
            p := Fresh(o.name, {}, BoolVal(o.iValue != 0));
          case TInt =>
            if o.size > 4 {
              continue;
            }
            if o.constraint == IntList {
              var enumNames := EnumNames(o.intList);
              p := Fresh(o.name, {"enum"}, IntVal(0)).(enumValues := o.intList, enumNames := enumNames);
            } else if o.constraint == Range {
              p := Fresh(o.name, {"raw"}, IntVal(o.iValue)).(minimum := Some(o.iMinimum), maximum := Some(o.iMaximum));
            } else {
              p := Fresh(o.name, {"raw"}, IntVal(o.iValue));
            }
          case TString =>
            if o.constraint == StringList {
              var d := DefaultIndex(o.stringList, o.sValue);
              p := Fresh(o.name, {"enum", "SaneTString"}, IntVal(d)).(enumNames := o.stringList);
            } else {
              p := Fresh(o.name, {}, StringVal(o.sValue));
            }
          case TButton =>
            p := Fresh(o.name, {"button"}, BoolVal(false));
          case _ =>
            continue;
        }
        p := p.(order := o.index + 100);
        assert ParamForAsWritten(o) == Some(p);
        entries := Emplace(entries, o.index, p);
      }
      assert os[..i] == os;
      r := Ok(entries);
    }

    /** `set_sane_options`: sends each parameter's value to its option, in
        map order, logging the calls that throw. `settings` are the map's
        entries with each parameter's current value, `statuses` the
        device's answers. */
    method SetSaneOptions(settings: seq<(int, DynParam, Val)>, statuses: map<int, int>)
      returns (sent: seq<(int, SetArg)>, log: seq<string>)
      ensures (sent, log) == Applied(settings, Usable(wrapper.state), statuses)
    {
      sent, log := [], [];
      var i := 0;
      while i < |settings|
        invariant 0 <= i <= |settings|
        invariant (sent, log) == Applied(settings[..i], Usable(wrapper.state), statuses)
      {
        var (k, p, v) := settings[i];
        AppliedStep(settings, i, Usable(wrapper.state), statuses);
        i := i + 1;
        var arg: Option<SetArg> := None;
        match v {
          case BoolVal(b) =>
            if "button" in p.tags && !b {
              continue;
            }
            arg := Some(IntArg(if b then 1 else 0));
          case IntVal(n) =>
            if "SaneTString" in p.tags {
              if 0 <= n < |p.enumValues| {
                arg := Some(IntArg(p.enumValues[n]));
              } else if 0 <= n < |p.enumNames| {
                arg := Some(StringArg(p.enumNames[n]));
              }
            } else {
              arg := Some(IntArg(n));
            }
          case StringVal(s) =>
            arg := Some(StringArg(s));
        }
        assert arg == Request(p, v);
        if arg.Some? {
          var res := wrapper.SetOption(k, p.name, StatusFor(statuses, k));
          ghost var failure := SetFailure(Usable(wrapper.state), p.name, StatusFor(statuses, k));
          assert res.Err? ==> failure == ["Failed to set option on sane device: " + res.msg];
          assert res.Ok? ==> failure == [] && log + failure == log;
          sent := sent + [(k, arg.value)];
          if res.Err? {
            log := log + ["Failed to set option on sane device: " + res.msg];
          }
        }
      }
      assert settings[..i] == settings;
    }

    /** `_format`: select the device, set its options, then read its frame
        parameters; a failure to read them gives no format. */
    method Format(device: int, names: seq<string>, opens: bool, settings: seq<(int, DynParam, Val)>,
                  statuses: map<int, int>, report: Report)
      returns (r: Result<Option<UploadFormat>>, sent: seq<(int, SetArg)>, log: seq<string>)
      requires 0 <= device < |names|
      modifies wrapper
      ensures var (sel, st) := Selected(old(wrapper.state), device, names[device], opens);
              wrapper.state == st &&
              (sel.Err? ==> r.Err?) &&
              (sel.Ok? ==> (sent, log) == Applied(settings, Usable(st), statuses) &&
                           r == Ok(FormatFor(Usable(st), report)))
    {
      sent, log := [], [];
      var sel := wrapper.SetCurrentDevice(device, names[device], opens);
      if sel.Err? {
        return Err(sel.msg), sent, log;
      }
      sent, log := SetSaneOptions(settings, statuses);
      var f := wrapper.Format(report.status, report.frame, report.bytesPerLine, report.pixelsPerLine,
                              report.lines, report.depth);
      if f.Err? {
        return Ok(None), sent, log;
      }
      r := Ok(UploadFor(f.value));
    }

    /** `scan`: select the device and set its options, then (through
        `_format`, which does both again) find the upload format, allocate
        a buffer of its size and read the scan into it. `started` is whether
        the device starts, `chunks` what its reads deliver. */
    method Scan(device: int, names: seq<string>, opens: bool, settings: seq<(int, DynParam, Val)>,
                statuses: map<int, int>, report: Report, started: bool, chunks: seq<Read>)
      returns (r: Result<Option<(HostCache.StaticHostImage, seq<bv8>)>>)
      requires 0 <= device < |names|
      requires ScanFits(report, chunks)
      modifies wrapper
      ensures var (sel, st) := Selected(old(wrapper.state), device, names[device], opens);
              wrapper.state == st &&
              (sel.Err? ==> r.Err?) &&
              (sel.Ok? && FormatFor(Usable(st), report).None? ==> r == Ok(None)) &&
              (sel.Ok? && FormatFor(Usable(st), report).Some? ==>
                 var u := FormatFor(Usable(st), report).value;
                 var s := ReadFrom(Zeroes(ScanBytes(u)), 0, chunks);
                 (r.Ok? <==> started && (s.status == STATUS_GOOD || s.status == STATUS_EOF)) &&
                 (r.Ok? ==> r.value.Some? && r.value.value.1 == s.buffer &&
                            r.value.value.0.size == ScanBytes(u) && r.value.value.0.dim == (u.width, u.height)))
    {
      var sel := wrapper.SetCurrentDevice(device, names[device], opens);
      if sel.Err? {
        return Err(sel.msg);
      }
      ghost var st := wrapper.state;
      var sent, log := SetSaneOptions(settings, statuses);
      var format;
      format, sent, log := Format(device, names, opens, settings, statuses, report);
      assert wrapper.state == st;
      if format.Err? {
        assert false;
      }
      if format.value.None? {
        return Ok(None);
      }
      var u := format.value.value;
      var channels := Channels(u.format);
      var pixSize := PixelSize(u.format);
      var image := HostCache.Make(u.width, u.height, channels, pixSize);
      var read, requests := wrapper.ReadImage(Zeroes(image.size), started, chunks);
      if read.Err? {
        return Err(read.msg);
      }
      r := Ok(Some((image, read.value)));
    }
  }
}
