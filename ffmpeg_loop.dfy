// The ffmpeg loop node's packet damage and frame copy
// (src/compute/ffmpeg_loop.cpp): every encoded packet has random stretches
// after its 0x01 bytes zeroed (0x01 ends the three-byte start code
// 0x000001 of ITU-T H.264 Annex B, section B.1), and the decoded YUV 4:2:0
// frame is copied plane by plane into the upload buffer. The random draws
// are inputs.
module FfmpegLoop {

  // ---- markers ----

  /** `ps` lists exactly the positions of 0x01 bytes in `data`, ascending. */
  predicate IsMarkers(data: seq<bv8>, ps: seq<int>)
  {
    (forall a, b :: 0 <= a < b < |ps| ==> ps[a] < ps[b]) &&
    (forall a :: 0 <= a < |ps| ==> 0 <= ps[a] < |data| && data[ps[a]] == 1) &&
    (forall t :: 0 <= t < |data| && data[t] == 1 ==> t in ps)
  }

  /** The positions of 0x01 among the first n bytes, ascending. */
  function MarkersUpTo(data: seq<bv8>, n: nat): (ps: seq<int>)
    requires n <= |data|
    ensures forall a, b :: 0 <= a < b < |ps| ==> ps[a] < ps[b]
    ensures forall a :: 0 <= a < |ps| ==> 0 <= ps[a] < n && data[ps[a]] == 1
    ensures forall t :: 0 <= t < n && data[t] == 1 ==> t in ps
  {
    if n == 0 then [] else MarkersUpTo(data, n - 1) + (if data[n - 1] == 1 then [n - 1] else [])
  }

  function Markers(data: seq<bv8>): (ps: seq<int>)
    ensures IsMarkers(data, ps)
  {
    MarkersUpTo(data, |data|)
  }

  /** The marker search loop. */
  method FindMarkers(pkt: array<bv8>) returns (markers: seq<int>)
    ensures markers == Markers(pkt[..])
  {
    markers := [];
    var i := 0;
    while i < pkt.Length
      invariant 0 <= i <= pkt.Length
      invariant markers == MarkersUpTo(pkt[..], i)
    {
      if pkt[i] == 1 {
        markers := markers + [i];
      }
      i := i + 1;
    }
  }

  // ---- blanking ----

  function Max(a: int, b: int): int { if a < b then b else a }
  function Min(a: int, b: int): int { if a < b then a else b }

  /** Where one blanking starts and how many bytes it zeroes: from the byte
      after marker `index` up to, not including, the byte before the next
      marker, or before the last byte of the packet. */
  function Span(size: int, ps: seq<int>, index: int): (r: (int, int))
    requires 0 <= index < |ps|
  {
    var from := ps[index] + 1;
    if index == |ps| - 1 then (from, Max(size - from - 1, 0))
    else (from, Max(Min(ps[index + 1] - from - 1, size - from - 1), 0))
  }

  /** The zeroed stretch stays inside the packet, ends before its last byte
      and before the byte preceding the next marker, and holds no marker. */
  lemma SpanBetweenMarkers(data: seq<bv8>, ps: seq<int>, index: int)
    requires IsMarkers(data, ps) && 0 <= index < |ps|
    ensures var (from, len) := Span(|data|, ps, index);
            from == ps[index] + 1 && 0 <= len &&
            (len > 0 ==> from + len <= |data| - 1) &&
            (index < |ps| - 1 ==> from + len <= Max(ps[index + 1] - 1, from)) &&
            forall t :: from <= t < from + len ==> data[t] != 1
  {
    var (from, len) := Span(|data|, ps, index);
    forall t | from <= t < from + len
      ensures data[t] != 1
    {
      forall m | 0 <= m < |ps|
        ensures ps[m] != t
      {
        if m <= index {
          assert ps[m] <= ps[index];
        } else {
          assert ps[index + 1] <= ps[m];
        }
      }
    }
  }

  /** One blanking of marker `index`. */
  function BlankOnce(data: seq<bv8>, ps: seq<int>, index: int): (r: seq<bv8>)
    requires IsMarkers(data, ps) && 0 <= index < |ps|
    ensures |r| == |data| && IsMarkers(r, ps)
    ensures forall t :: 0 <= t < |r| ==> r[t] == data[t] || (r[t] == 0 && data[t] != 1)
    ensures |data| > 0 ==> r[|data| - 1] == data[|data| - 1]
  {
    var (from, len) := Span(|data|, ps, index);
    SpanBetweenMarkers(data, ps, index);
    seq(|data|, t requires 0 <= t < |data| => if from <= t < from + len then 0 else data[t])
  }

  /** The blankings for the drawn marker indices, in draw order. */
  function BlankAll(data: seq<bv8>, ps: seq<int>, draws: seq<int>): (r: seq<bv8>)
    requires IsMarkers(data, ps)
    requires forall k :: 0 <= k < |draws| ==> 0 <= draws[k] < |ps|
    ensures |r| == |data| && IsMarkers(r, ps)
    ensures forall t :: 0 <= t < |r| ==> r[t] == data[t] || (r[t] == 0 && data[t] != 1)
    ensures |data| > 0 ==> r[|data| - 1] == data[|data| - 1]
  {
    if draws == [] then data
    else
      var n := |draws| - 1;
      var before := BlankAll(data, ps, draws[..n]);
      BlankOnce(before, ps, draws[n])
  }

  /** One more draw is one more blanking of the result so far. */
  lemma BlankAllStep(data: seq<bv8>, ps: seq<int>, draws: seq<int>, i: int)
    requires IsMarkers(data, ps) && 0 <= i < |draws|
    requires forall k :: 0 <= k < |draws| ==> 0 <= draws[k] < |ps|
    ensures BlankAll(data, ps, draws[..i + 1]) == BlankOnce(BlankAll(data, ps, draws[..i]), ps, draws[i])
  {
    assert draws[..i + 1][..i] == draws[..i];
  }

  /** Zeroing exactly the span of marker `index` is its blanking. */
  lemma ZeroedIsBlankOnce(cur: seq<bv8>, after: seq<bv8>, ps: seq<int>, index: int)
    requires IsMarkers(cur, ps) && 0 <= index < |ps| && |after| == |cur|
    requires var (from, len) := Span(|cur|, ps, index);
             forall u :: 0 <= u < |after| ==> after[u] == if from <= u < from + len then 0 else cur[u]
    ensures after == BlankOnce(cur, ps, index)
  {
  }

  /** A packet is damaged only by zeroing: its size, its markers and its
      last byte survive any sequence of blankings, and a blanking never
      reaches the byte before the next marker. */
  lemma {:induction false} BlankingKeepsMarkers(data: seq<bv8>, draws: seq<int>)
    requires forall k :: 0 <= k < |draws| ==> 0 <= draws[k] < |Markers(data)|
    ensures var r := BlankAll(data, Markers(data), draws);
            |r| == |data| && Markers(r) == Markers(data) &&
            forall t :: 0 <= t < |data| ==> (r[t] == 1 <==> data[t] == 1)
  {
    var ps := Markers(data);
    var r := BlankAll(data, ps, draws);
    forall t | 0 <= t < |data|
      ensures r[t] == 1 <==> data[t] == 1
    {
      if data[t] == 1 {
        var m :| 0 <= m < |ps| && ps[m] == t;
      }
    }
    MarkersUnique(r, Markers(r), ps);
  }

  /** The markers of a packet are determined by its bytes. */
  lemma MarkersUnique(data: seq<bv8>, ps: seq<int>, qs: seq<int>)
    requires IsMarkers(data, ps) && IsMarkers(data, qs)
    ensures ps == qs
  {
    forall x
      ensures x in ps <==> x in qs
    {
      if x in ps {
        var a :| 0 <= a < |ps| && ps[a] == x;
      }
      if x in qs {
        var b :| 0 <= b < |qs| && qs[b] == x;
      }
    }
    AscendingSameElements(ps, qs);
  }

  /** Two strictly ascending sequences with the same elements are equal. */
  lemma AscendingSameElements(ps: seq<int>, qs: seq<int>)
    requires forall a, b :: 0 <= a < b < |ps| ==> ps[a] < ps[b]
    requires forall a, b :: 0 <= a < b < |qs| ==> qs[a] < qs[b]
    requires forall x :: x in ps <==> x in qs
    ensures ps == qs
    decreases |ps|
  {
    assert |ps| > 0 ==> ps[0] in ps;
    assert |qs| > 0 ==> qs[0] in qs;
    if ps != [] {
      assert ps[0] in qs;
      assert qs[0] in ps;
      var a :| 0 <= a < |ps| && ps[a] == qs[0];
      var b :| 0 <= b < |qs| && qs[b] == ps[0];
      assert ps[0] <= ps[a] && qs[0] <= qs[b];
      forall x
        ensures x in ps[1..] <==> x in qs[1..]
      {
        if x in ps[1..] {
          var i :| 0 <= i < |ps[1..]| && ps[1..][i] == x;
          assert ps[i + 1] == x && ps[0] < x;
          assert x in qs;
          var j :| 0 <= j < |qs| && qs[j] == x;
          assert j != 0 && qs[1..][j - 1] == x;
        }
        if x in qs[1..] {
          var j :| 0 <= j < |qs[1..]| && qs[1..][j] == x;
          assert qs[j + 1] == x && qs[0] < x;
          assert x in ps;
          var i :| 0 <= i < |ps| && ps[i] == x;
          assert i != 0 && ps[1..][i - 1] == x;
        }
      }
      AscendingSameElements(ps[1..], qs[1..]);
      assert ps == [ps[0]] + ps[1..] && qs == [qs[0]] + qs[1..];
    }
  }

  /** `memset(&pkt[from], 0, len)`. */
  method ZeroSpan(pkt: array<bv8>, from: int, len: int)
    requires 0 <= from && 0 <= len && (len > 0 ==> from + len <= pkt.Length)
    modifies pkt
    ensures forall u :: 0 <= u < pkt.Length ==> pkt[u] == if from <= u < from + len then 0 else old(pkt[u])
  {
    var t := from;
    while t < from + len
      invariant from <= t <= from + len
      invariant forall u :: 0 <= u < pkt.Length ==> pkt[u] == if from <= u < t then 0 else old(pkt[u])
    {
      pkt[t] := 0;
      t := t + 1;
    }
  }

  /** One blanking in place: the stretch after marker `index`, per `Span`. */
  method BlankMarker(pkt: array<bv8>, markers: seq<int>, index: int)
    requires IsMarkers(pkt[..], markers) && 0 <= index < |markers|
    modifies pkt
    ensures pkt[..] == BlankOnce(old(pkt[..]), markers, index)
  {
    ghost var cur := pkt[..];
    var from := markers[index] + 1;
    var len := 0;
    if index == |markers| - 1 {
      len := Max(pkt.Length - from - 1, 0);
    } else {
      len := Max(Min(markers[index + 1] - from - 1, pkt.Length - from - 1), 0);
    }
    assert (from, len) == Span(|cur|, markers, index);
    SpanBetweenMarkers(cur, markers, index);
    ZeroSpan(pkt, from, len);
    ZeroedIsBlankOnce(cur, pkt[..], markers, index);
  }

  /** One packet: find its markers, draw how many blankings (within
      [0, max(blank size, 0)]) and which markers, and zero each stretch in
      place. */
  method BlankPacket(pkt: array<bv8>, blankSize: int, count: int, draws: seq<int>)
    requires 0 <= count <= Max(blankSize, 0) && |draws| == count
    requires forall k :: 0 <= k < count ==> 0 <= draws[k] < |Markers(pkt[..])|
    modifies pkt
    ensures pkt[..] == BlankAll(old(pkt[..]), Markers(old(pkt[..])), draws)
  {
    var markers := FindMarkers(pkt);
    ghost var data := pkt[..];
    var i := 0;
    while i < count
      invariant 0 <= i <= count
      invariant pkt[..] == BlankAll(data, markers, draws[..i])
    {
      BlankMarker(pkt, markers, draws[i]);
      BlankAllStep(data, markers, draws, i);
      i := i + 1;
    }
    assert draws[..i] == draws;
  }

  // ---- frame copy ----

  /** A decoded YUV 4:2:0 frame: three planes and their line sizes. */
  datatype YuvFrame = YuvFrame(y: seq<bv8>, u: seq<bv8>, v: seq<bv8>, lineY: int, lineU: int, lineV: int)

  /** The frame has even, non-negative dimensions w x h, its lines are at
      least as wide as the rows copied from them, and each plane holds all
      its lines. */
  predicate Fits(f: YuvFrame, w: int, h: int)
  {
    0 <= w && 0 <= h && w % 2 == 0 && h % 2 == 0 &&
    w <= f.lineY && w / 2 <= f.lineU && w / 2 <= f.lineV &&
    h * f.lineY <= |f.y| && (h / 2) * f.lineU <= |f.u| && (h / 2) * f.lineV <= |f.v|
  }

  /** Where the U plane and the V plane start and where the picture ends:
      the Y plane is w * h bytes, and each chroma plane (w/2) * (h/2). */
  function UStart(w: int, h: int): int { w * h }
  function VStart(w: int, h: int): int { w * h + (h / 2) * (w / 2) }
  function PlanesEnd(w: int, h: int): int { w * h + 2 * ((h / 2) * (w / 2)) }

  lemma MulLe(a: int, b: int, c: int)
    requires a <= b && 0 <= c
    ensures a * c <= b * c
  {
  }

  /** With even sizes the C offsets are those of packed half-size planes:
      j*w/2 is the start of chroma row j, w*h*5/4 is where V starts and
      w*h*3/2 is where the planes end. */
  lemma HalfOffsets(w: int, h: int, j: int)
    requires 0 <= w && 0 <= h && w % 2 == 0 && h % 2 == 0 && 0 <= j
    ensures j * w / 2 == j * (w / 2)
    ensures w * h * 5 / 4 == VStart(w, h) && w * h * 3 / 2 == PlanesEnd(w, h)
  {
    var hw, hh := w / 2, h / 2;
    assert j * w == 2 * (j * hw);
    assert w * h == 4 * (hh * hw);
  }

  /** Line r of n lines of `line` bytes, `width` of them used. */
  lemma RowFits(r: int, n: int, line: int, width: int)
    requires 0 <= r < n && 0 <= width <= line
    ensures 0 <= r * line && r * line + width <= n * line
  {
    MulLe(r + 1, n, line);
    MulLe(0, r, line);
    assert (r + 1) * line == r * line + line;
  }

  /** The lines read and written for row j lie inside their buffers. */
  predicate RowInside(w: int, h: int, f: YuvFrame, j: int)
  {
    0 <= j * f.lineY && j * f.lineY + w <= |f.y| &&
    0 <= j * w && j * w + w <= UStart(w, h) &&
    0 <= (h / 2) * (w / 2) && UStart(w, h) <= VStart(w, h) <= PlanesEnd(w, h) &&
    (j < h / 2 ==> 0 <= j * f.lineU && j * f.lineU + w / 2 <= |f.u| &&
                   0 <= j * f.lineV && j * f.lineV + w / 2 <= |f.v| &&
                   0 <= j * (w / 2) && j * (w / 2) + w / 2 <= (h / 2) * (w / 2))
  }

  lemma RowBounds(w: int, h: int, f: YuvFrame, j: int)
    requires Fits(f, w, h) && 0 <= j < h
    ensures RowInside(w, h, f, j)
  {
    RowFits(j, h, f.lineY, w);
    RowFits(j, h, w, w);
    assert h * w == w * h;
    MulLe(0, h / 2, w / 2);
    if j < h / 2 {
      RowFits(j, h / 2, f.lineU, w / 2);
      RowFits(j, h / 2, f.lineV, w / 2);
      RowFits(j, h / 2, w / 2, w / 2);
    }
  }

  /** `memcpy(&buf[at], &plane[from], len)` on values. */
  function CopyLine(buf: seq<bv8>, at: int, plane: seq<bv8>, from: int, len: int): (r: seq<bv8>)
    requires 0 <= at && 0 <= len && at + len <= |buf| && 0 <= from && from + len <= |plane|
    ensures |r| == |buf|
    ensures forall k {:trigger r[k]} :: 0 <= k < |r| ==>
              r[k] == if at <= k < at + len then plane[from + (k - at)] else buf[k]
  {
    seq(|buf|, k requires 0 <= k < |buf| => if at <= k < at + len then plane[from + (k - at)] else buf[k])
  }

  /** One row of the copy: luma row j to j * w and, for the first h/2 rows,
      chroma row j to the U and the V plane. */
  function CopyRow(buf: seq<bv8>, w: int, h: int, f: YuvFrame, j: int): (r: seq<bv8>)
    requires Fits(f, w, h) && PlanesEnd(w, h) <= |buf| && 0 <= j < h && RowInside(w, h, f, j)
    ensures |r| == |buf|
  {
    var luma := CopyLine(buf, j * w, f.y, j * f.lineY, w);
    if j < h / 2 then
      var withU := CopyLine(luma, UStart(w, h) + j * (w / 2), f.u, j * f.lineU, w / 2);
      CopyLine(withU, VStart(w, h) + j * (w / 2), f.v, j * f.lineV, w / 2)
    else luma
  }

  /** Byte k of `buf` after the copy of rows 0 .. n-1: from row n-1's V,
      U or luma line when it lies in one of them, else as after the rows
      before. */
  function RowByte(buf: seq<bv8>, w: int, h: int, f: YuvFrame, n: nat, k: int): bv8
    requires Fits(f, w, h) && PlanesEnd(w, h) <= |buf| && n <= h && 0 <= k < |buf|
  {
    if n == 0 then buf[k]
    else
      var j := n - 1;
      RowBounds(w, h, f, j);
      var u, v := UStart(w, h) + j * (w / 2), VStart(w, h) + j * (w / 2);
      if j < h / 2 && v <= k < v + w / 2 then f.v[j * f.lineV + (k - v)]
      else if j < h / 2 && u <= k < u + w / 2 then f.u[j * f.lineU + (k - u)]
      else if j * w <= k < j * w + w then f.y[j * f.lineY + (k - j * w)]
      else RowByte(buf, w, h, f, n - 1, k)
  }

  /** `buf` after the copy of rows 0 .. n-1. */
  function CopiedRows(buf: seq<bv8>, w: int, h: int, f: YuvFrame, n: nat): (r: seq<bv8>)
    requires Fits(f, w, h) && PlanesEnd(w, h) <= |buf| && n <= h
    ensures |r| == |buf| && forall k {:trigger r[k]} :: 0 <= k < |r| ==> r[k] == RowByte(buf, w, h, f, n, k)
  {
    seq(|buf|, k requires 0 <= k < |buf| => RowByte(buf, w, h, f, n, k))
  }

  /** Copying row j onto the rows before it gives the rows up to j. */
  lemma CopyRowStep(buf: seq<bv8>, w: int, h: int, f: YuvFrame, j: nat)
    requires Fits(f, w, h) && PlanesEnd(w, h) <= |buf| && j < h && RowInside(w, h, f, j)
    ensures CopyRow(CopiedRows(buf, w, h, f, j), w, h, f, j) == CopiedRows(buf, w, h, f, j + 1)
  {
    var prev := CopiedRows(buf, w, h, f, j);
    var luma := CopyLine(prev, j * w, f.y, j * f.lineY, w);
    if j < h / 2 {
      var withU := CopyLine(luma, UStart(w, h) + j * (w / 2), f.u, j * f.lineU, w / 2);
      var all := CopyLine(withU, VStart(w, h) + j * (w / 2), f.v, j * f.lineV, w / 2);
      assert CopyRow(prev, w, h, f, j) == all;
      forall k | 0 <= k < |buf|
        ensures all[k] == RowByte(buf, w, h, f, j + 1, k)
      {
      }
    } else {
      assert CopyRow(prev, w, h, f, j) == luma;
      forall k | 0 <= k < |buf|
        ensures luma[k] == RowByte(buf, w, h, f, j + 1, k)
      {
      }
    }
  }

  /** Luma pixel (j, x) sits at j * w: the Y plane is packed row by row. */
  lemma {:induction false} LumaAt(buf: seq<bv8>, w: int, h: int, f: YuvFrame, n: nat, j: nat, x: int)
    requires Fits(f, w, h) && PlanesEnd(w, h) <= |buf| && j < n <= h && 0 <= x < w
    ensures 0 <= j * w + x < |buf| && 0 <= j * f.lineY + x < |f.y|
    ensures CopiedRows(buf, w, h, f, n)[j * w + x] == f.y[j * f.lineY + x]
  {
    var r := n - 1;
    var k := j * w + x;
    RowBounds(w, h, f, j);
    RowBounds(w, h, f, r);
    if j < r {
      LumaAt(buf, w, h, f, r, j, x);
      MulLe(j + 1, r, w);
      assert (j + 1) * w == j * w + w;
    }
  }

  /** Chroma pixel (j, x) of U sits at w*h + j * (w/2): the U plane follows
      the Y plane, packed at half width. */
  lemma {:induction false} ChromaUAt(buf: seq<bv8>, w: int, h: int, f: YuvFrame, n: nat, j: nat, x: int)
    requires Fits(f, w, h) && PlanesEnd(w, h) <= |buf| && j < n <= h && j < h / 2 && 0 <= x < w / 2
    ensures 0 <= UStart(w, h) + j * (w / 2) + x < |buf| && 0 <= j * f.lineU + x < |f.u|
    ensures CopiedRows(buf, w, h, f, n)[UStart(w, h) + j * (w / 2) + x] == f.u[j * f.lineU + x]
  {
    var r := n - 1;
    var k := UStart(w, h) + j * (w / 2) + x;
    RowBounds(w, h, f, j);
    RowBounds(w, h, f, r);
    if j < r {
      ChromaUAt(buf, w, h, f, r, j, x);
      MulLe(j + 1, r, w / 2);
      assert (j + 1) * (w / 2) == j * (w / 2) + w / 2;
    }
  }

  /** Chroma pixel (j, x) of V sits at w*h + (w/2)*(h/2) + j * (w/2): the V
      plane follows the U plane, packed at half width. */
  lemma {:induction false} ChromaVAt(buf: seq<bv8>, w: int, h: int, f: YuvFrame, n: nat, j: nat, x: int)
    requires Fits(f, w, h) && PlanesEnd(w, h) <= |buf| && j < n <= h && j < h / 2 && 0 <= x < w / 2
    ensures 0 <= VStart(w, h) + j * (w / 2) + x < |buf| && 0 <= j * f.lineV + x < |f.v|
    ensures CopiedRows(buf, w, h, f, n)[VStart(w, h) + j * (w / 2) + x] == f.v[j * f.lineV + x]
  {
    var r := n - 1;
    var k := VStart(w, h) + j * (w / 2) + x;
    RowBounds(w, h, f, j);
    RowBounds(w, h, f, r);
    if j < r {
      ChromaVAt(buf, w, h, f, r, j, x);
      MulLe(j + 1, r, w / 2);
      assert (j + 1) * (w / 2) == j * (w / 2) + w / 2;
    }
  }

  /** Bytes past the three planes are left as they were. */
  lemma {:induction false} TailKept(buf: seq<bv8>, w: int, h: int, f: YuvFrame, n: nat, k: int)
    requires Fits(f, w, h) && PlanesEnd(w, h) <= k < |buf| && n <= h
    ensures CopiedRows(buf, w, h, f, n)[k] == buf[k]
  {
    if n > 0 {
      RowBounds(w, h, f, n - 1);
      TailKept(buf, w, h, f, n - 1, k);
    }
  }

  function Zeroes(n: nat): (r: seq<bv8>)
    ensures |r| == n && forall k :: 0 <= k < n ==> r[k] == 0
  {
    seq(n, _ => 0)
  }

  /** `memcpy(&dest[at], &plane[from], len)`. */
  method CopyBytes(dest: array<bv8>, at: int, plane: seq<bv8>, from: int, len: int)
    requires 0 <= at && 0 <= len && at + len <= dest.Length && 0 <= from && from + len <= |plane|
    modifies dest
    ensures dest[..] == CopyLine(old(dest[..]), at, plane, from, len)
  {
    var i := 0;
    while i < len
      invariant 0 <= i <= len
      invariant forall k :: 0 <= k < dest.Length ==> dest[k] == if at <= k < at + i then plane[from + (k - at)] else old(dest[k])
    {
      dest[at + i] := plane[from + i];
      i := i + 1;
    }
  }

  /** One iteration of the copy loop: luma row j, and for the first h/2
      rows chroma row j, at the offsets `execute` computes. */
  method CopyFrameRow(dest: array<bv8>, w: int, h: int, f: YuvFrame, j: int)
    requires Fits(f, w, h) && w * h * 3 / 2 <= dest.Length && 0 <= j < h
    modifies dest
    ensures RowInside(w, h, f, j) && PlanesEnd(w, h) <= dest.Length
    ensures dest[..] == CopyRow(old(dest[..]), w, h, f, j)
  {
    RowBounds(w, h, f, j);
    HalfOffsets(w, h, j);
    CopyBytes(dest, j * w, f.y, j * f.lineY, w);
    if j < h / 2 {
      CopyBytes(dest, w * h + j * w / 2, f.u, j * f.lineU, w / 2);
      CopyBytes(dest, w * h * 5 / 4 + j * w / 2, f.v, j * f.lineV, w / 2);
    }
  }

  /** The end of `execute`: clear the upload buffer of w*h*3/2 bytes or
      more, then, when a frame was received, copy its planes row by row;
      otherwise the buffer stays cleared. */
  method CopyFrame(dest: array<bv8>, w: int, h: int, f: YuvFrame, received: bool)
    requires Fits(f, w, h) && w * h * 3 / 2 <= dest.Length
    modifies dest
    ensures PlanesEnd(w, h) <= dest.Length
    ensures dest[..] == if received then CopiedRows(Zeroes(dest.Length), w, h, f, h) else Zeroes(dest.Length)
  {
    HalfOffsets(w, h, 0);
    ZeroSpan(dest, 0, dest.Length);
    assert dest[..] == Zeroes(dest.Length);
    if received {
      var j := 0;
      assert dest[..] == CopiedRows(Zeroes(dest.Length), w, h, f, 0);
      while j < h
        invariant 0 <= j <= h
        invariant dest[..] == CopiedRows(Zeroes(dest.Length), w, h, f, j)
      {
        CopyFrameRow(dest, w, h, f, j);
        CopyRowStep(Zeroes(dest.Length), w, h, f, j);
        j := j + 1;
      }
    }
  }
}
