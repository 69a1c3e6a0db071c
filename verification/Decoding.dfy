/**
 Source decoding (crates/graph-core/src/encoding.rs): the order in which encodings are tried,
 the BOM-less UTF-16 sniff and the binary test. UTF-16 is concrete; the other decoders and
 the detector are parameters, of which only what their documentation says is used.
 */
module Decoding {
  import opened Options
  import opened Utf16

  datatype Encoding = UTF_8 | UTF_16LE | UTF_16BE | ISO_2022_JP | WINDOWS_1252 | REPLACEMENT | Legacy(name: string)

  /** The decoders of other encodings, and the detector. */
  datatype Lib = Lib(
    strict: (Encoding, seq<Byte>) -> Option<Text>,
    replace: (Encoding, seq<Byte>) -> (Text, bool),
    guess: seq<Byte> -> Encoding)

  /** Replacing is lossy exactly when the strict decoder fails, and windows-1252 maps every
      byte. */
  ghost predicate Lawful(lib: Lib) {
    && (forall e: Encoding, b: seq<Byte> :: (lib.replace(e, b).1 <==> lib.strict(e, b).None?))
    && (forall e: Encoding, b: seq<Byte> :: lib.strict(e, b).Some? ==> lib.replace(e, b) == (lib.strict(e, b).value, false))
    && (forall b: seq<Byte> :: lib.strict(WINDOWS_1252, b).Some?)
  }

  const DETECTABLE: set<Encoding> :=
    {WINDOWS_1252, ISO_2022_JP,
     Legacy("windows-1250"), Legacy("windows-1251"), Legacy("windows-1253"), Legacy("windows-1254"), Legacy("windows-1255"),
     Legacy("windows-1256"), Legacy("windows-1257"), Legacy("windows-1258"), Legacy("windows-874"), Legacy("ISO-8859-2"),
     Legacy("ISO-8859-3"), Legacy("ISO-8859-4"), Legacy("ISO-8859-5"), Legacy("ISO-8859-6"), Legacy("ISO-8859-7"),
     Legacy("ISO-8859-8"), Legacy("ISO-8859-8-I"), Legacy("ISO-8859-10"), Legacy("ISO-8859-13"), Legacy("ISO-8859-14"),
     Legacy("ISO-8859-15"), Legacy("ISO-8859-16"), Legacy("KOI8-R"), Legacy("KOI8-U"), Legacy("IBM866"), Legacy("Shift_JIS"),
     Legacy("EUC-JP"), Legacy("EUC-KR"), Legacy("GBK"), Legacy("gb18030"), Legacy("Big5")}

  function StrictWith(lib: Lib, e: Encoding, b: seq<Byte>): Option<Text> {
    if e.UTF_16BE? || e.UTF_16LE? then Strict(b, e.UTF_16BE?) else lib.strict(e, b)
  }

  function ReplaceWith(lib: Lib, e: Encoding, b: seq<Byte>): (Text, bool) {
    if e.UTF_16BE? || e.UTF_16LE? then Replace(b, e.UTF_16BE?) else lib.replace(e, b)
  }

  lemma ReplaceWithIs(lib: Lib, e: Encoding, b: seq<Byte>)
    requires Lawful(lib)
    ensures ReplaceWith(lib, e, b).1 <==> StrictWith(lib, e, b).None?
    ensures StrictWith(lib, e, b).Some? ==> ReplaceWith(lib, e, b) == (StrictWith(lib, e, b).value, false)
  {
    ReplaceIs(b, e.UTF_16BE?);
  }

  // ---- detection

  function ForBom(b: seq<Byte>): Option<Encoding> {
    if |b| >= 3 && b[..3] == [0xEF, 0xBB, 0xBF] then Some(UTF_8)
    else if |b| >= 2 && b[..2] == [0xFF, 0xFE] then Some(UTF_16LE)
    else if |b| >= 2 && b[..2] == [0xFE, 0xFF] then Some(UTF_16BE)
    else None
  }

  const UTF16_SNIFF_WINDOW: nat := 4096

  /** The whole code units in the window. */
  function WindowUnits(b: seq<Byte>): (n: nat)
    ensures 2 * n <= |b|
  {
    (if |b| < UTF16_SNIFF_WINDOW then |b| else UTF16_SNIFF_WINDOW) / 2
  }

  /** The NULs among the first `n` bytes at even (`side` 0) or odd (`side` 1) places. */
  function Nuls(b: seq<Byte>, n: nat, side: nat): (r: nat)
    requires side <= 1 && 2 * n <= |b|
    ensures r <= n
  {
    if n == 0 then 0 else Nuls(b, n - 1, side) + if b[2 * (n - 1) + side] == 0 then 1 else 0
  }

  predicate CleanChar(c: Scalar) {
    c >= 0x20 || c == 0x09 || c == 0x0A || c == 0x0C || c == 0x0D
  }

  predicate Clean(text: Text) {
    forall i :: 0 <= i < |text| ==> CleanChar(text[i])
  }

  /** The byte order passes, with `high` NULs in its high bytes and `low` in its low ones. */
  predicate Candidate(lib: Lib, b: seq<Byte>, be: bool, high: nat, low: nat, units: nat) {
    var heavy := high * 2 >= units;
    var cjk := lib.strict(UTF_8, b).None? && high > 0 && high * 64 >= units;
    && (heavy || cjk) && low * 16 < units
    && Strict(b, be).Some? && Clean(Strict(b, be).value)
  }

  function Sniff(lib: Lib, b: seq<Byte>): Option<Encoding> {
    var units := WindowUnits(b);
    if units == 0 then None
    else
      var even, odd := Nuls(b, units, 0), Nuls(b, units, 1);
      var be := Candidate(lib, b, true, even, odd, units);
      var le := Candidate(lib, b, false, odd, even, units);
      if le && be then Some(if even > odd then UTF_16BE else UTF_16LE)
      else if le then Some(UTF_16LE)
      else if be then Some(UTF_16BE)
      else None
  }

  predicate DesignationAt(b: seq<Byte>, i: nat) {
    i + 3 <= |b| && (b[i..i + 3] == [0x1B, 0x24, 0x40] || b[i..i + 3] == [0x1B, 0x24, 0x42])
  }

  predicate LooksLikeIso2022Jp(b: seq<Byte>) {
    && (forall i :: 0 <= i < |b| ==> b[i] < 0x80)
    && exists i :: 0 <= i <= |b| && DesignationAt(b, i)
  }

  predicate IsBinary(lib: Lib, b: seq<Byte>, hint: Option<Encoding>) {
    && 0 in b && ForBom(b).None?
    && !(hint == Some(UTF_16LE) || hint == Some(UTF_16BE))
    && Sniff(lib, b).None?
  }

  datatype Decoded = Decoded(text: Text, encoding: Encoding, lossy: bool)

  function DecodeWith(lib: Lib, e: Encoding, b: seq<Byte>): Decoded {
    var (text, lossy) := ReplaceWith(lib, e, b);
    Decoded(text, e, lossy)
  }

  /** The steps that need neither a BOM nor a hint. */
  function Detected(lib: Lib, b: seq<Byte>): Decoded {
    var sniffed := Sniff(lib, b);
    if sniffed.Some? then DecodeWith(lib, sniffed.value, b)
    else if LooksLikeIso2022Jp(b) && lib.strict(ISO_2022_JP, b).Some? then
      Decoded(lib.strict(ISO_2022_JP, b).value, ISO_2022_JP, false)
    else if lib.strict(UTF_8, b).Some? then Decoded(lib.strict(UTF_8, b).value, UTF_8, false)
    else if lib.guess(b) in DETECTABLE && StrictWith(lib, lib.guess(b), b).Some? then
      Decoded(StrictWith(lib, lib.guess(b), b).value, lib.guess(b), false)
    else DecodeWith(lib, WINDOWS_1252, b)
  }

  function Decode(lib: Lib, b: seq<Byte>, hint: Option<Encoding>): Decoded {
    var bom := ForBom(b);
    if bom.Some? then DecodeWith(lib, bom.value, b)
    else if hint.Some? && hint.value != REPLACEMENT then DecodeWith(lib, hint.value, b)
    else Detected(lib, b)
  }

  // ---- what a sniff means

  lemma SniffedIsCandidate(lib: Lib, b: seq<Byte>)
    requires Sniff(lib, b).Some?
    ensures var e := Sniff(lib, b).value;
            (e.UTF_16BE? || e.UTF_16LE?) && Strict(b, e.UTF_16BE?).Some? && Clean(Strict(b, e.UTF_16BE?).value)
  {
  }

  /** Without a BOM or a hint nothing is ever replaced. */
  lemma NeverLossy(lib: Lib, b: seq<Byte>)
    requires Lawful(lib) && ForBom(b).None?
    ensures !Decode(lib, b, None).lossy
  {
    if Sniff(lib, b).Some? {
      SniffedIsCandidate(lib, b);
      ReplaceWithIs(lib, Sniff(lib, b).value, b);
    } else {
      ReplaceWithIs(lib, WINDOWS_1252, b);
    }
  }

  /** Bytes with a NUL that are not binary are the UTF-16 bytes of the text, in the order
      found, and the text has no U+0000. */
  lemma NulMeansUtf16(lib: Lib, b: seq<Byte>)
    requires Lawful(lib) && ForBom(b).None? && 0 in b && !IsBinary(lib, b, None)
    ensures var d := Decode(lib, b, None);
            && (d.encoding.UTF_16LE? || d.encoding.UTF_16BE?) && !d.lossy
            && b == Bytes(Encode(d.text), d.encoding.UTF_16BE?) && 0 !in d.text
  {
    SniffedIsCandidate(lib, b);
    var e := Sniff(lib, b).value;
    ReplaceWithIs(lib, e, b);
    StrictIffEncoded(b, e.UTF_16BE?, Strict(b, e.UTF_16BE?).value);
  }

  /** On valid UTF-8 at most one byte order passes the sniff. */
  lemma OneOrderOnUtf8(lib: Lib, b: seq<Byte>)
    requires lib.strict(UTF_8, b).Some?
    ensures var n := WindowUnits(b); var even, odd := Nuls(b, n, 0), Nuls(b, n, 1);
            !(Candidate(lib, b, true, even, odd, n) && Candidate(lib, b, false, odd, even, n))
  {
  }

  lemma {:induction false} NoNuls(b: seq<Byte>, n: nat, side: nat)
    requires side <= 1 && 2 * n <= |b| && 0 !in b
    ensures Nuls(b, n, side) == 0
  {
    if n == 0 {
    } else {
      NoNuls(b, n - 1, side);
    }
  }

  /** Valid UTF-8 without a NUL or a JIS X 0208 designation is itself. */
  lemma Utf8IsItself(lib: Lib, b: seq<Byte>)
    requires ForBom(b).None? && lib.strict(UTF_8, b).Some? && 0 !in b && !LooksLikeIso2022Jp(b)
    ensures Decode(lib, b, None) == Decoded(lib.strict(UTF_8, b).value, UTF_8, false)
    ensures !IsBinary(lib, b, None)
  {
    NoNuls(b, WindowUnits(b), 0);
    NoNuls(b, WindowUnits(b), 1);
  }

  // ---- UTF-16 text without a BOM

  /** The units among the first `n` whose high (or low) byte is zero. */
  function ZeroHigh(us: seq<Unit>, n: nat): nat
    requires n <= |us|
  {
    if n == 0 then 0 else ZeroHigh(us, n - 1) + if us[n - 1] / 256 == 0 then 1 else 0
  }

  function ZeroLow(us: seq<Unit>, n: nat): nat
    requires n <= |us|
  {
    if n == 0 then 0 else ZeroLow(us, n - 1) + if us[n - 1] % 256 == 0 then 1 else 0
  }

  lemma {:induction false} NulsAreZeros(us: seq<Unit>, be: bool, n: nat)
    requires n <= |us|
    ensures Nuls(Bytes(us, be), n, if be then 0 else 1) == ZeroHigh(us, n)
    ensures Nuls(Bytes(us, be), n, if be then 1 else 0) == ZeroLow(us, n)
    decreases n
  {
    if n == 0 {
    } else {
      NulsAreZeros(us, be, n - 1);
      ByteOf(us, be, n - 1);
    }
  }

  /** In the window at least half the units have a zero high byte and fewer than one in
      sixteen a zero low byte. */
  predicate AsciiHeavy(us: seq<Unit>) {
    var n := if |us| < UTF16_SNIFF_WINDOW / 2 then |us| else UTF16_SNIFF_WINDOW / 2;
    ZeroHigh(us, n) * 2 >= n && ZeroLow(us, n) * 16 < n
  }

  function Order(be: bool): Encoding {
    if be then UTF_16BE else UTF_16LE
  }

  lemma OtherOrderFails(lib: Lib, b: seq<Byte>, be: bool, high: nat, low: nat, n: nat)
    requires high * 2 >= n && low * 16 < n
    ensures !Candidate(lib, b, !be, low, high, n)
  {
  }

  lemma HeavyWindow(us: seq<Unit>, be: bool, n: nat)
    requires n == WindowUnits(Bytes(us, be)) && AsciiHeavy(us)
    ensures Nuls(Bytes(us, be), n, if be then 0 else 1) * 2 >= n && Nuls(Bytes(us, be), n, if be then 1 else 0) * 16 < n
  {
    NulsAreZeros(us, be, n);
  }

  lemma HeavyIsSniffed(lib: Lib, text: Text, be: bool)
    requires Clean(text) && AsciiHeavy(Encode(text))
    ensures Sniff(lib, Bytes(Encode(text), be)) == Some(Order(be))
  {
    var b := Bytes(Encode(text), be);
    var n := WindowUnits(b);
    StrictIffEncoded(b, be, text);
    HeavyWindow(Encode(text), be, n);
    OtherOrderFails(lib, b, be, Nuls(b, n, if be then 0 else 1), Nuls(b, n, if be then 1 else 0), n);
  }

  /** Such a text, written in either order without a BOM of its own, is never binary, and
      comes back in the order it was written, nothing replaced, exactly when its bytes do not
      begin like another encoding's BOM. */
  lemma HeavyTextRoundTrips(lib: Lib, text: Text, be: bool)
    requires Clean(text) && AsciiHeavy(Encode(text))
    ensures var b := Bytes(Encode(text), be);
            && !IsBinary(lib, b, None)
            && (Decode(lib, b, None) == Decoded(text, Order(be), false) <==> ForBom(b).None? || ForBom(b) == Some(Order(be)))
  {
    var b := Bytes(Encode(text), be);
    HeavyIsSniffed(lib, text, be);
    StrictIffEncoded(b, be, text);
    ReplaceIs(b, be);
  }

  /** A text that does begin like one: U+FFFE is the other order's BOM. */
  lemma OtherBomMisleads(lib: Lib, rest: Text)
    requires Clean(rest) && AsciiHeavy([0xFFFE] + Encode(rest))
    ensures Decode(lib, Bytes(Encode([0xFFFE] + rest), true), None).encoding == UTF_16LE
  {
    var text: Text := [0xFFFE] + rest;
    var b := Bytes(Encode(text), true);
    assert text[1..] == rest;
    assert Encode(text)[0] == 0xFFFE;
    ByteOf(Encode(text), true, 0);
    assert b[..2] == [0xFF, 0xFE];
  }

  /** A text under its own BOM comes back with the BOM, whatever the hint. */
  lemma BomRoundTrips(lib: Lib, text: Text, be: bool, hint: Option<Encoding>)
    ensures var marked: Text := [0xFEFF] + text; var b := Bytes(Encode(marked), be);
            Decode(lib, b, hint) == Decoded(marked, Order(be), false) && !IsBinary(lib, b, hint)
  {
    var marked: Text := [0xFEFF] + text;
    var us := Encode(marked);
    var b := Bytes(us, be);
    assert us[0] == 0xFEFF;
    ByteOf(us, be, 0);
    assert b[..2] == if be then [0xFE, 0xFF] else [0xFF, 0xFE];
    assert |b| >= 3 ==> b[..3][0] == b[0];
    StrictIffEncoded(b, be, marked);
    ReplaceIs(b, be);
  }
}
