/**
  Archive member headers as bytes: decimal fields padded with spaces, and the reader that finds a
  member's size and name in the sixty bytes (archive.c, include/aout/ar.h).
 */
module ArHeader {
  import opened Bytes
  import opened Ascii

  const SARMAG := 8
  const HDR := 60
  const ARMAG: Text := [33, 60, 97, 114, 99, 104, 62, 10]
  const ARMAGT: Text := [33, 60, 116, 104, 105, 110, 62, 10]
  const ARFMAG: Text := [96, 10]
  /** "#1/", the start of a BSD 4.4 extended name. */
  const BSD44: Text := [35, 49, 47]
  const WORD64 := 0x1_0000_0000_0000_0000
  const MAX_SIZE := 10_000_000_000

  lemma Pow10Size()
    ensures Pow10(10) == MAX_SIZE
  {
    assert Pow10(5) == 100_000;
    assert Pow10(10) == 100_000 * Pow10(5);
  }

  /** _bfd_ar_sizepad: a size that needs more digits than the field has is an error. */
  function SizePad(size: nat): (r: Option<Text>)
    ensures r.Some? ==> |r.value| == 10
  {
    if |Decimal(size)| <= 10 then Some(SpacePad(Decimal(size), 10)) else None
  }

  lemma SizeFits(size: nat)
    ensures SizePad(size).Some? <==> size < MAX_SIZE
  {
    DecimalLength(size, 10);
    Pow10Size();
  }

  /** The size field, which the reader takes modulo the width of a file position. */
  function ScanSize(field: Text): Option<nat> {
    if Scan(field).Some? then Some(Scan(field).value % WORD64) else None
  }

  lemma SizeReads(size: nat)
    requires SizePad(size).Some?
    ensures ScanSize(SizePad(size).value) == Some(size)
  {
    SizeFits(size);
    var d := Decimal(size);
    var rest := Spaces(10 - |d|);
    assert SpacePad(d, 10) == d + rest;
    ScanDecimal(size, rest);
  }

  // ----- headers -----

  /** name 16, date 12, owner 6, group 6, mode 8, size 10, magic 2. */
  function Header(name: Text, meta: Text, size: Text): (h: Text)
    requires |name| == 16 && |meta| == 32 && |size| == 10
    ensures |h| == HDR
  {
    name + meta + size + ARFMAG
  }

  lemma HeaderFields(name: Text, meta: Text, size: Text)
    requires |name| == 16 && |meta| == 32 && |size| == 10
    ensures var h := Header(name, meta, size); h[..16] == name && h[48..58] == size && h[58..60] == ARFMAG
  {
  }

  /** A name in the header ends at a NUL, else at a slash, else at a space, else with the field. */
  function ShortName(field: Text, maxName: nat): Text
    requires maxName <= |field|
  {
    var z := IndexOf(field, NUL, maxName);
    var s := IndexOf(field, SLASH, maxName);
    field[..if z < maxName then z else if s < maxName then s else IndexOf(field, SPACE, maxName)]
  }

  /** What reading a header tells: origin is where the member's bytes start. */
  datatype Elt = Elt(name: Text, size: nat, extra: nat, origin: nat)

  predicate Extended(h: Text, maxName: nat)
    requires maxName <= |h| == HDR
  {
    h[0] == SLASH || (h[0] == SPACE && IndexOf(h, SLASH, maxName) == maxName)
  }

  predicate Bsd44Extended(h: Text)
    requires |h| == HDR
  {
    h[..3] == BSD44 && IsDigit(h[3])
  }

  /**
    _bfd_generic_read_ar_hdr for a non-thin archive; names is the table of long names, if there is
    one, with the NUL that is stored behind it.
   */
  function ReadHdr(file: Text, pos: nat, names: Option<Text>, maxName: nat): (r: Option<Elt>)
    requires maxName <= 16
    ensures r.Some? ==> r.value.origin == pos + HDR + r.value.extra <= |file| && r.value.size < WORD64
  {
    if pos + HDR > |file| then None
    else
      var h := file[pos..pos + HDR];
      var size := ScanSize(h[48..58]);
      if h[58..60] != ARFMAG || size.None? then None
      else if Extended(h, maxName) && names.Some? then
        var i := Strtol(h[1..]);
        if 0 <= i < |names.value| - 1 then Some(Elt(CString(names.value, i), size.value, 0, pos + HDR)) else None
      else if Bsd44Extended(h) then
        var n := Strtol(h[3..]);
        if n > size.value || pos + HDR + n > |file| then None
        else
          var raw := file[pos + HDR..pos + HDR + n];
          assert n >= 0 by { Unsigned(h[3..]); }
          Some(Elt(CString(raw, 0), size.value - n, n, pos + HDR + n))
      else Some(Elt(ShortName(h, maxName), size.value, 0, pos + HDR))
  }

  lemma Unsigned(s: Text)
    requires s != [] && IsDigit(s[0])
    ensures Strtol(s) >= 0
  {
  }
}
