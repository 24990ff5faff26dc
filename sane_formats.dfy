// The formats the scanner service deals in (src/inputs/sane/sane_formats.hpp):
// the format a scan is uploaded in, and the frame format a SANE device
// reports.
module SaneFormats {

  /** The upload formats the scanner service chooses from. */
  datatype UploadKind = Rgb8 | Rgb16 | R8 | R16

  datatype UploadFormat = UploadFormat(format: UploadKind, width: int, height: int)

  /** `operator==` on UploadFormat: all three fields agree. */
  predicate SameUpload(l: UploadFormat, r: UploadFormat)
  {
    l.format == r.format && l.width == r.width && l.height == r.height
  }

  /** The field-wise comparison is exactly value equality, so it is an
      equivalence. */
  lemma SameUploadIsEquality(a: UploadFormat, b: UploadFormat, c: UploadFormat)
    ensures SameUpload(a, b) <==> a == b
    ensures SameUpload(a, a)
    ensures SameUpload(a, b) ==> SameUpload(b, a)
    ensures SameUpload(a, b) && SameUpload(b, c) ==> SameUpload(a, c)
  {
  }

  datatype SaneChannels = Gray | RGB | Red | Green | Blue

  datatype SaneFormat = SaneFormat(channels: SaneChannels, bytesPerLine: int, width: int,
                                   height: int, depth: int)

  /** A default-constructed SaneFormat: RGB, every number -1. */
  const DefaultSaneFormat: SaneFormat := SaneFormat(RGB, -1, -1, -1, -1)

  /** `operator!=` on SaneFormat: some field differs. */
  predicate DiffersFrom(l: SaneFormat, r: SaneFormat)
  {
    l.channels != r.channels || l.bytesPerLine != r.bytesPerLine || l.width != r.width ||
    l.height != r.height || l.depth != r.depth
  }

  lemma DiffersIsInequality(a: SaneFormat, b: SaneFormat)
    ensures DiffersFrom(a, b) <==> a != b
    ensures !DiffersFrom(a, a)
    ensures DiffersFrom(a, b) <==> DiffersFrom(b, a)
  {
  }

  /** The default format has no usable size, so the service never uploads
      it. */
  lemma DefaultUnusable()
    ensures DefaultSaneFormat.channels == RGB
    ensures DefaultSaneFormat.width <= 0 && DefaultSaneFormat.height <= 0 && DefaultSaneFormat.depth == -1
  {
  }
}
