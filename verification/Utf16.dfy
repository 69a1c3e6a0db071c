/** UTF-16, as in sections 2.1 and 2.2 of RFC 2781: the encoder, the strict decoder and the
    replacing decoder over bytes in either order. */
module Utf16 {
  import opened Options
  import Tokens

  type Byte = Tokens.Byte
  type Scalar = x: nat | x < 0x11_0000 && !(0xD800 <= x < 0xE000)
  type Unit = x: nat | x < 0x1_0000

  type Text = seq<Scalar>

  predicate High(u: Unit) {
    0xD800 <= u < 0xDC00
  }

  predicate Low(u: Unit) {
    0xDC00 <= u < 0xE000
  }

  // ---- encoding

  function EncodeScalar(c: Scalar): (r: seq<Unit>)
    ensures 1 <= |r| <= 2
  {
    if c < 0x1_0000 then [c] else [0xD800 + (c - 0x1_0000) / 0x400, 0xDC00 + (c - 0x1_0000) % 0x400]
  }

  function Encode(text: Text): seq<Unit> {
    if text == [] then [] else EncodeScalar(text[0]) + Encode(text[1..])
  }

  function UnitBytes(u: Unit, be: bool): (r: seq<Byte>)
    ensures |r| == 2
  {
    if be then [u / 256, u % 256] else [u % 256, u / 256]
  }

  function Bytes(us: seq<Unit>, be: bool): (r: seq<Byte>)
    ensures |r| == 2 * |us|
  {
    if us == [] then [] else Bytes(us[..|us| - 1], be) + UnitBytes(us[|us| - 1], be)
  }

  // ---- decoding

  function UnitAt(b: seq<Byte>, i: nat, be: bool): Unit
    requires 2 * i + 1 < |b|
  {
    var x, y := b[2 * i] as int, b[2 * i + 1] as int;
    if be then x * 256 + y else y * 256 + x
  }

  /** The whole units of the bytes. */
  function Units(b: seq<Byte>, be: bool): (r: seq<Unit>)
    ensures |r| == |b| / 2
  {
    seq(|b| / 2, i requires 0 <= i < |b| / 2 => UnitAt(b, i, be))
  }

  function Pair(hi: Unit, lo: Unit): Scalar
    requires High(hi) && Low(lo)
  {
    0x1_0000 + (hi - 0xD800) * 0x400 + (lo - 0xDC00)
  }

  function Onto(c: Scalar, rest: Option<Text>): Option<Text> {
    if rest.None? then None else Some([c] + rest.value)
  }

  /** Fails on an unpaired surrogate. */
  function StrictUnits(us: seq<Unit>): Option<Text>
    decreases us
  {
    if us == [] then Some([])
    else if !High(us[0]) && !Low(us[0]) then Onto(us[0], StrictUnits(us[1..]))
    else if High(us[0]) && |us| > 1 && Low(us[1]) then Onto(Pair(us[0], us[1]), StrictUnits(us[2..]))
    else None
  }

  function Strict(b: seq<Byte>, be: bool): Option<Text> {
    if |b| % 2 == 1 then None else StrictUnits(Units(b, be))
  }

  const REPLACED: Scalar := 0xFFFD

  /** The text and whether anything was replaced; `cut` says that a lone byte follows. */
  function ReplaceUnits(us: seq<Unit>, cut: bool): (Text, bool)
    decreases us
  {
    if us == [] then if cut then ([REPLACED], true) else ([], false)
    else if !High(us[0]) && !Low(us[0]) then
      var (t, lossy) := ReplaceUnits(us[1..], cut);
      ([us[0]] + t, lossy)
    else if High(us[0]) && |us| > 1 && Low(us[1]) then
      var (t, lossy) := ReplaceUnits(us[2..], cut);
      ([Pair(us[0], us[1])] + t, lossy)
    else if High(us[0]) && |us| == 1 then ([REPLACED], true)
    else ([REPLACED] + ReplaceUnits(us[1..], cut).0, true)
  }

  function Replace(b: seq<Byte>, be: bool): (Text, bool) {
    ReplaceUnits(Units(b, be), |b| % 2 == 1)
  }

  // ---- the two decoders agree

  lemma {:induction false} ReplaceUnitsIs(us: seq<Unit>, cut: bool)
    ensures var s := StrictUnits(us);
            && (ReplaceUnits(us, cut).1 <==> s.None? || cut)
            && (s.Some? && !cut ==> ReplaceUnits(us, cut) == (s.value, false))
    decreases us
  {
    if us == [] {
    } else if !High(us[0]) && !Low(us[0]) {
      ReplaceUnitsIs(us[1..], cut);
    } else if High(us[0]) && |us| > 1 && Low(us[1]) {
      ReplaceUnitsIs(us[2..], cut);
    }
  }

  /** The replacing decoder is lossy exactly when the strict one fails, and agrees with it
      when it does not. */
  lemma ReplaceIs(b: seq<Byte>, be: bool)
    ensures Replace(b, be).1 <==> Strict(b, be).None?
    ensures Strict(b, be).Some? ==> Replace(b, be) == (Strict(b, be).value, false)
  {
    ReplaceUnitsIs(Units(b, be), |b| % 2 == 1);
  }

  // ---- round trip

  lemma SplitScalar(c: Scalar)
    requires c >= 0x1_0000
    ensures var us := EncodeScalar(c); High(us[0]) && Low(us[1]) && Pair(us[0], us[1]) == c
  {
  }

  lemma StrictStep(c: Scalar, rest: seq<Unit>)
    ensures StrictUnits(EncodeScalar(c) + rest) == Onto(c, StrictUnits(rest))
  {
    var us := EncodeScalar(c) + rest;
    if c < 0x1_0000 {
      assert us[1..] == rest;
    } else {
      SplitScalar(c);
      assert us[2..] == rest;
    }
  }

  lemma {:induction false} UnitsRoundTrip(text: Text)
    ensures StrictUnits(Encode(text)) == Some(text)
    decreases text
  {
    if text == [] {
    } else {
      UnitsRoundTrip(text[1..]);
      StrictStep(text[0], Encode(text[1..]));
      assert text == [text[0]] + text[1..];
    }
  }

  lemma {:induction false} ByteOf(us: seq<Unit>, be: bool, i: nat)
    requires i < |us|
    ensures Bytes(us, be)[2 * i] == UnitBytes(us[i], be)[0] && Bytes(us, be)[2 * i + 1] == UnitBytes(us[i], be)[1]
    decreases us
  {
    if i < |us| - 1 {
      ByteOf(us[..|us| - 1], be, i);
    }
  }

  lemma BytesRoundTrip(us: seq<Unit>, be: bool)
    ensures Units(Bytes(us, be), be) == us
  {
    forall i | 0 <= i < |us|
      ensures UnitAt(Bytes(us, be), i, be) == us[i]
    {
      ByteOf(us, be, i);
    }
  }

  lemma JoinScalar(hi: Unit, lo: Unit)
    requires High(hi) && Low(lo)
    ensures EncodeScalar(Pair(hi, lo)) == [hi, lo]
  {
    var d := Pair(hi, lo) - 0x1_0000;
    assert d == (hi - 0xD800) * 0x400 + (lo - 0xDC00);
    assert d / 0x400 == hi - 0xD800 && d % 0x400 == lo - 0xDC00;
  }

  lemma {:induction false} OnlyOneEncoding(us: seq<Unit>)
    ensures StrictUnits(us).Some? ==> Encode(StrictUnits(us).value) == us
    decreases us
  {
    if us != [] && StrictUnits(us).Some? {
      var text := StrictUnits(us).value;
      if !High(us[0]) && !Low(us[0]) {
        OnlyOneEncoding(us[1..]);
        assert text[1..] == StrictUnits(us[1..]).value;
      } else {
        OnlyOneEncoding(us[2..]);
        JoinScalar(us[0], us[1]);
        assert text[1..] == StrictUnits(us[2..]).value;
      }
    }
  }

  lemma UnitSplits(b: seq<Byte>, k: nat, be: bool)
    requires 2 * k + 1 < |b|
    ensures UnitBytes(UnitAt(b, k, be), be) == [b[2 * k], b[2 * k + 1]]
  {
  }

  lemma PairBack(b: seq<Byte>, be: bool, k: nat)
    requires |b| % 2 == 0 && k < |b| / 2
    ensures var r := Bytes(Units(b, be), be); r[2 * k] == b[2 * k] && r[2 * k + 1] == b[2 * k + 1]
  {
    ByteOf(Units(b, be), be, k);
    UnitSplits(b, k, be);
  }

  lemma UnitsBack(b: seq<Byte>, be: bool)
    requires |b| % 2 == 0
    ensures Bytes(Units(b, be), be) == b
  {
    var r := Bytes(Units(b, be), be);
    forall i | 0 <= i < |b|
      ensures r[i] == b[i]
    {
      PairBack(b, be, i / 2);
      assert i == 2 * (i / 2) || i == 2 * (i / 2) + 1;
    }
  }

  /** The strict decoder reads a text from exactly its own bytes. */
  lemma StrictIffEncoded(b: seq<Byte>, be: bool, text: Text)
    ensures Strict(b, be) == Some(text) <==> b == Bytes(Encode(text), be)
  {
    BytesRoundTrip(Encode(text), be);
    UnitsRoundTrip(text);
    if Strict(b, be) == Some(text) {
      OnlyOneEncoding(Units(b, be));
      UnitsBack(b, be);
    }
  }
}
