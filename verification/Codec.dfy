/**
 The token stream codec (spikes/data-model/spike.rs): varints, zigzag, and the delta
 encoded tokens of one file. u32 arithmetic wraps, as it does in the release build.
 */
module Codec {
  import opened Options
  import opened Tokens
  import opened Basics
  import opened Bits

  // ---- varints

  function Varint(x: nat): (r: seq<Byte>)
    ensures r != []
  {
    if x < 128 then [x] else [128 + x % 128] + Varint(x / 128)
  }

  method Put(v: seq<Byte>, n: nat) returns (w: seq<Byte>)
    ensures w == v + Varint(n)
  {
    w := v;
    var x := n;
    while x >= 128
      invariant v + Varint(n) == w + Varint(x)
    {
      w := w + [128 + x % 128];
      x := x / 128;
    }
    w := w + [x];
  }

  /** Reads on from `pos`, with `acc` read so far and the next seven bits to go to `sh`; nothing
      when the bytes run out. */
  function GetOn(b: seq<Byte>, pos: nat, sh: nat, acc: nat): (r: Option<(nat, nat)>)
    ensures r.Some? ==> pos < r.value.1 <= |b|
    decreases |b| - pos
  {
    if pos >= |b| then None
    else
      var next := Or(acc, Shl(b[pos] % 128, sh));
      if b[pos] < 128 then Some((next, pos + 1)) else GetOn(b, pos + 1, sh + 7, next)
  }

  function Get(b: seq<Byte>, pos: nat): (r: Option<(nat, nat)>)
    ensures r.Some? ==> pos < r.value.1 <= |b|
  {
    GetOn(b, pos, 0, 0)
  }

  /** `p` is at `pos` in `b`. */
  predicate At(b: seq<Byte>, pos: nat, p: seq<Byte>) {
    pos + |p| <= |b| && b[pos..pos + |p|] == p
  }

  /** A byte whose bits stay within the word adds them to what was read. */
  lemma GetStep(b: seq<Byte>, pos: nat, sh: nat, acc: nat, r: nat)
    requires pos < |b| && sh < 64 && acc < Pow2(sh) && r < 128 && r * Pow2(sh) < U64
    requires b[pos] == r || b[pos] == r + 128
    ensures var next := acc + r * Pow2(sh);
            GetOn(b, pos, sh, acc) == if b[pos] < 128 then Some((next, pos + 1)) else GetOn(b, pos + 1, sh + 7, next)
  {
    hide Pow2, Or, Shl;
    assert b[pos] % 128 == r;
    ShlMultiplies(r, sh);
    OrAdds(acc, r, sh);
  }

  lemma NextShift(sh: nat, acc: nat, q: nat, r: nat)
    requires acc < Pow2(sh) && r < 128
    ensures Pow2(sh + 7) == 128 * Pow2(sh)
    ensures acc + r * Pow2(sh) < Pow2(sh + 7)
    ensures acc + (q * 128 + r) * Pow2(sh) == (acc + r * Pow2(sh)) + q * Pow2(sh + 7)
  {
    var s := Pow2(sh);
    PowersAdd(sh, 7);
    assert Pow2(7) == 128;
    assert r * s <= 127 * s;
    assert (q * 128 + r) * s == q * (128 * s) + r * s;
  }

  lemma ShiftFits(sh: nat, q: nat)
    requires q >= 1 && q * Pow2(sh) < U64
    ensures sh < 64
  {
    AtLeastOnce(q, Pow2(sh));
    WordSize();
    if sh >= 64 {
      PowersRise(64, sh);
    }
  }

  lemma {:induction false} GetRest(b: seq<Byte>, pos: nat, sh: nat, acc: nat, x: nat)
    requires At(b, pos, Varint(x)) && sh < 64 && acc < Pow2(sh) && acc + x * Pow2(sh) < U64
    ensures GetOn(b, pos, sh, acc) == Some((acc + x * Pow2(sh), pos + |Varint(x)|))
    decreases x
  {
    hide Pow2, Or, Shl, GetOn;
    AtHead(b, pos, Varint(x));
    if x < 128 {
      GetStep(b, pos, sh, acc, x);
    } else {
      var q, r := x / 128, x % 128;
      NextShift(sh, acc, q, r);
      ShiftFits(sh + 7, q);
      GetStep(b, pos, sh, acc, r);
      assert Varint(x)[1..] == Varint(q);
      GetRest(b, pos + 1, sh + 7, acc + r * Pow2(sh), q);
    }
  }

  /** A varint at `pos` is read whole. */
  lemma GetVarint(b: seq<Byte>, pos: nat, x: nat)
    requires At(b, pos, Varint(x)) && x < U64
    ensures Get(b, pos) == Some((x, pos + |Varint(x)|))
  {
    assert Pow2(0) == 1;
    GetRest(b, pos, 0, 0, x);
  }

  lemma AtHead(b: seq<Byte>, pos: nat, p: seq<Byte>)
    requires At(b, pos, p) && p != []
    ensures b[pos] == p[0] && At(b, pos + 1, p[1..])
  {
    assert b[pos] == b[pos..pos + |p|][0] == p[0];
    assert b[pos + 1..pos + |p|] == b[pos..pos + |p|][1..];
  }

  lemma AtLeastOnce(q: nat, n: nat)
    requires 1 <= q
    ensures n <= q * n
  {
    assert q * n == n + (q - 1) * n;
  }

  /** A varint read gives back what was written and consumes exactly its bytes. */
  lemma VarintRoundTrip(pre: seq<Byte>, x: nat, post: seq<Byte>)
    requires x < U64
    ensures Get(pre + Varint(x) + post, |pre|) == Some((x, |pre| + |Varint(x)|))
  {
    var b := pre + Varint(x) + post;
    assert b[|pre|..|pre| + |Varint(x)|] == Varint(x);
    GetVarint(b, |pre|, x);
  }

  /** The reading cursor. */
  class Cur {
    const data: seq<Byte>
    var pos: nat

    constructor (b: seq<Byte>)
      ensures data == b && pos == 0
    {
      data, pos := b, 0;
    }

    /** A read past the end is the panic of the source. */
    method Next() returns (r: Option<nat>)
      modifies this
      ensures r.Some? <==> Get(data, old(pos)).Some?
      ensures r.Some? ==> Get(data, old(pos)) == Some((r.value, pos))
    {
      var acc: nat, sh: nat := 0, 0;
      ghost var from := pos;
      while pos < |data|
        invariant Get(data, from) == GetOn(data, pos, sh, acc)
      {
        var b := data[pos];
        pos := pos + 1;
        acc := Or(acc, Shl(b % 128, sh));
        if b < 128 {
          return Some(acc);
        }
        sh := sh + 7;
      }
      return None;
    }
  }

  // ---- zigzag

  /** `((x << 1) ^ (x >> 63)) as u64`. */
  function ZigZag(x: int): nat
    requires -I63 <= x < I63
  {
    Xor(Shl(Word(x), 1), Word(Sign(x)))
  }

  /** `x >> 63` of a signed word. */
  function Sign(x: int): int {
    if x < 0 then -1 else 0
  }

  /** `((x >> 1) as i64) ^ -((x & 1) as i64)`. */
  function UnZigZag(x: nat): int
    requires x < U64
  {
    Signed(Xor(x / 2, Word(-(x % 2))))
  }

  /** The shifts and the exclusive or interleave the numbers that are not negative with those
      that are. */
  lemma ZigZagIs(x: int)
    requires -I63 <= x < I63
    ensures ZigZag(x) == (if x >= 0 then 2 * x else -2 * x - 1) < U64
  {
    assert Pow2(1) == 2 && 1 % 64 == 1;
    var w := Shl(Word(x), 1);
    assert w == if x >= 0 then 2 * x else 2 * x + U64;
    XorSign(w, x < 0);
  }

  lemma UnZigZagIs(u: nat)
    requires u < U64
    ensures UnZigZag(u) == if u % 2 == 0 then u / 2 else -(u / 2) - 1
    ensures -I63 <= UnZigZag(u) < I63
  {
    XorSign(u / 2, u % 2 == 1);
  }

  /** Zigzag is a bijection between i64 and u64. */
  lemma ZigZagInverts(x: int, u: nat)
    requires -I63 <= x < I63 && u < U64
    ensures ZigZag(x) < U64 && UnZigZag(ZigZag(x)) == x
    ensures -I63 <= UnZigZag(u) < I63 && ZigZag(UnZigZag(u)) == u
  {
    hide ZigZag, UnZigZag;
    ZigZagIs(x);
    UnZigZagIs(ZigZag(x));
    UnZigZagIs(u);
    ZigZagIs(UnZigZag(u));
  }

  // ---- one token

  /** A token with its dictionary id. The text's byte length and character count are
      `lens(term)`. */
  datatype Tok = Tok(term: u32, kind: TokenClass, span: Span)

  type Lens = u32 -> (nat, nat)

  /** The end of the previous token. */
  datatype Prev = Prev(end: u32, line: u32, col: u32)

  const START := Prev(0, 1, 1)

  function EndOf(s: Span): Prev {
    Prev(s.end, s.endLine, s.endCol)
  }

  function ClassCode(k: TokenClass): nat {
    match k
    case Identifier => 0
    case Keyword => 1
    case Literal => 2
    case Operator => 3
    case Punctuation => 4
    case Comment => 5
    case Other => 6
  }

  function ClassOf(u: nat): Option<TokenClass> {
    match u
    case 0 => Some(Identifier)
    case 1 => Some(Keyword)
    case 2 => Some(Literal)
    case 3 => Some(Operator)
    case 4 => Some(Punctuation)
    case 5 => Some(Comment)
    case 6 => Some(Other)
    case _ => None
  }

  function Gap(p: Prev, s: Span): u32 {
    Sub32(s.start, p.end)
  }

  predicate NewLine(p: Prev, s: Span) {
    s.startLine > p.line
  }

  function PredCol(p: Prev, s: Span): u32 {
    if NewLine(p, s) then 1 else Add32(p.col, Gap(p, s))
  }

  predicate Regular(p: Prev, t: Tok, lens: Lens) {
    var s := t.span;
    && s.endLine == s.startLine
    && Sub32(s.end, s.start) == lens(t.term).0
    && s.endCol == Add32(s.startCol, lens(t.term).1)
    && (NewLine(p, s) || s.startCol == PredCol(p, s))
  }

  function Bit(b: bool): nat {
    if b then 1 else 0
  }

  function Shift(p: Prev, s: Span): (x: int)
    ensures -I63 <= x < I63
  {
    if NewLine(p, s) then 0 else s.startCol - PredCol(p, s)
  }

  /** The numbers one token is written as. */
  function Numbers(p: Prev, t: Tok, lens: Lens): seq<nat> {
    var s := t.span;
    [t.term * 16 + ClassCode(t.kind) * 2 + Bit(!Regular(p, t, lens)), Gap(p, s) * 2 + Bit(NewLine(p, s))]
    + PlaceNumbers(p, s)
    + (if Regular(p, t, lens) then [] else IrregularNumbers(p, s))
  }

  function Varints(ns: seq<nat>): seq<Byte> {
    if ns == [] then [] else Varint(ns[0]) + Varints(ns[1..])
  }

  function EncodeTok(p: Prev, t: Tok, lens: Lens): seq<Byte> {
    Varints(Numbers(p, t, lens))
  }

  /** How one token is written after another. */
  type Writer = (Prev, Tok) -> seq<Byte>

  function WriterOf(lens: Lens): Writer {
    (p, t) => EncodeTok(p, t, lens)
  }

  function EncodeToks(w: Writer, p: Prev, toks: seq<Tok>): seq<Byte>
    decreases toks
  {
    if toks == [] then []
    else w(p, toks[0]) + EncodeToks(w, EndOf(toks[0].span), toks[1..])
  }

  function EncodeStream(toks: seq<Tok>, lens: Lens): seq<Byte> {
    Varint(|toks|) + EncodeToks(WriterOf(lens), START, toks)
  }

  // ---- decoding

  /** A source of numbers: what is read at a position, and the position after it. */
  type Reader = nat -> Option<(nat, nat)>

  function ReaderOf(b: seq<Byte>): Reader {
    pos => Get(b, pos)
  }

  function Trunc32(x: nat): u32 {
    x % U32
  }

  /** Line, column and the next position. */
  function DecodePlace(rd: Reader, pos: nat, p: Prev, gap: u32, nl: bool): Option<(u32, u32, nat)> {
    if !nl then Some((p.line, Add32(p.col, gap), pos))
    else
      var l := rd(pos);
      if l.None? then None
      else
        var c := rd(l.value.1);
        if c.None? then None
        else Some((Add32(p.line, Trunc32(l.value.0)), Add32(Trunc32(c.value.0), 1), c.value.1))
  }

  function IrregularSpan(start: u32, line: u32, col: u32, z: nat, el: nat, ec: nat, len: nat): Span {
    Span(start, Add32(start, Trunc32(len)), line, (col + UnZigZag(z % U64)) % U32, Add32(line, Trunc32(el)), Trunc32(ec))
  }

  /** The four explicit numbers of an irregular token. */
  function DecodeIrregular(rd: Reader, pos: nat, start: u32, line: u32, col: u32): Option<(Span, nat)> {
    var z := rd(pos);
    if z.None? then None
    else
      var el := rd(z.value.1);
      if el.None? then None
      else
        var ec := rd(el.value.1);
        if ec.None? then None
        else
          var len := rd(ec.value.1);
          if len.None? then None
          else Some((IrregularSpan(start, line, col, z.value.0, el.value.0, ec.value.0, len.value.0), len.value.1))
  }

  function DecodeSpan(rd: Reader, pos: nat, p: Prev, gap: u32, nl: bool, irr: bool, text: (nat, nat)): Option<(Span, nat)> {
    var place := DecodePlace(rd, pos, p, gap, nl);
    if place.None? then None
    else
      var (line, col, next) := place.value;
      var start := Add32(p.end, gap);
      if irr then DecodeIrregular(rd, next, start, line, col)
      else Some((Span(start, Add32(start, text.0), line, col, line, Add32(col, text.1)), next))
  }

  function DecodeTok(rd: Reader, pos: nat, p: Prev, lens: Lens): Option<(Tok, nat)> {
    var v := rd(pos);
    if v.None? then None
    else
      var g := rd(v.value.1);
      var kind := ClassOf(v.value.0 / 2 % 8);
      if g.None? || kind.None? then None
      else
        var term := Trunc32(v.value.0 / 16);
        var span := DecodeSpan(rd, g.value.1, p, Trunc32(g.value.0 / 2), g.value.0 % 2 == 1, v.value.0 % 2 == 1, lens(term));
        if span.None? then None else Some((Tok(term, kind.value, span.value.0), span.value.1))
  }

  /** How one token is read, after a given end. */
  type TokReader = (nat, Prev) -> Option<(Tok, nat)>

  function TokReaderOf(b: seq<Byte>, lens: Lens): TokReader {
    (pos, p) => DecodeTok(ReaderOf(b), pos, p, lens)
  }

  function DecodeToks(rd: TokReader, pos: nat, n: nat, p: Prev): Option<seq<Tok>>
    decreases n
  {
    if n == 0 then Some([])
    else
      var t := rd(pos, p);
      if t.None? then None
      else
        var rest := DecodeToks(rd, t.value.1, n - 1, EndOf(t.value.0.span));
        if rest.None? then None else Some([t.value.0] + rest.value)
  }

  function DecodeStream(b: seq<Byte>, lens: Lens): Option<seq<Tok>> {
    var n := Get(b, 0);
    if n.None? then None else DecodeToks(TokReaderOf(b, lens), n.value.1, n.value.0, START)
  }

  // ---- what comes back

  function EchoLine(p: Prev, q: Prev, s: Span): u32 {
    if NewLine(p, s) then Add32(q.line, s.startLine - p.line) else q.line
  }

  function EchoSpan(p: Prev, q: Prev, s: Span): Span {
    s.(startLine := EchoLine(p, q, s), endLine := Add32(EchoLine(p, q, s), Sub32(s.endLine, s.startLine)))
  }

  /** The token a decoder standing at `q` makes of one encoded after `p`: everything is
      as written, but a token not on a new line is put on the decoder's own line. */
  function Echo(p: Prev, q: Prev, t: Tok): Tok {
    t.(span := EchoSpan(p, q, t.span))
  }

  /** The decoder has lost at most the line. */
  predicate InStep(p: Prev, q: Prev) {
    p.end == q.end && p.col == q.col
  }

  lemma AtSplits(b: seq<Byte>, pos: nat, u: seq<Byte>, v: seq<Byte>)
    requires At(b, pos, u + v)
    ensures At(b, pos, u) && At(b, pos + |u|, v)
  {
    var w := u + v;
    assert b[pos..pos + |u|] == b[pos..pos + |w|][..|u|] == u;
    assert b[pos + |u|..pos + |u| + |v|] == b[pos..pos + |w|][|u|..] == v;
  }

  /** Reading at `ps[0]`, `ps[1]`, ... gives `ns` in turn. */
  predicate Reads(rd: Reader, ps: seq<nat>, ns: seq<nat>) {
    && |ps| == |ns| + 1
    && forall i :: 0 <= i < |ns| ==> rd(ps[i]) == Some((ns[i], ps[i + 1]))
  }

  lemma {:induction false} VarintsRead(b: seq<Byte>, pos: nat, ns: seq<nat>) returns (ps: seq<nat>)
    requires At(b, pos, Varints(ns)) && forall i :: 0 <= i < |ns| ==> ns[i] < U64
    ensures Reads(ReaderOf(b), ps, ns) && ps[0] == pos && ps[|ns|] == pos + |Varints(ns)|
    decreases |ns|
  {
    if ns == [] {
      ps := [pos];
    } else {
      var v, rest := Varint(ns[0]), ns[1..];
      AtSplits(b, pos, v, Varints(rest));
      GetVarint(b, pos, ns[0]);
      var qs := VarintsRead(b, pos + |v|, rest);
      ps := [pos] + qs;
      forall i | 0 <= i < |ns|
        ensures ReaderOf(b)(ps[i]) == Some((ns[i], ps[i + 1]))
      {
        if i > 0 {
          assert ns[i] == rest[i - 1] && ps[i] == qs[i - 1] && ps[i + 1] == qs[i];
        }
      }
    }
  }

  lemma ReadsPart(rd: Reader, ps: seq<nat>, ns: seq<nat>, from: nat, to: nat)
    requires Reads(rd, ps, ns) && from <= to <= |ns|
    ensures Reads(rd, ps[from..to + 1], ns[from..to])
  {
    var qs, ms := ps[from..to + 1], ns[from..to];
    forall i | 0 <= i < |ms|
      ensures rd(qs[i]) == Some((ms[i], qs[i + 1]))
    {
      assert ms[i] == ns[from + i] && qs[i] == ps[from + i] && qs[i + 1] == ps[from + i + 1];
    }
  }

  /** Where a token is, as written after its first two numbers. */
  function PlaceNumbers(p: Prev, s: Span): seq<nat> {
    if NewLine(p, s) then [s.startLine - p.line, Sub32(s.startCol, 1)] else []
  }

  function IrregularNumbers(p: Prev, s: Span): seq<nat> {
    [ZigZag(Shift(p, s)), Sub32(s.endLine, s.startLine), s.endCol, Sub32(s.end, s.start)]
  }

  function ReadCol(p: Prev, s: Span): u32 {
    if NewLine(p, s) then s.startCol else PredCol(p, s)
  }

  lemma PlaceEcho(rd: Reader, p: Prev, q: Prev, s: Span, ps: seq<nat>)
    requires InStep(p, q) && Reads(rd, ps, PlaceNumbers(p, s))
    ensures DecodePlace(rd, ps[0], q, Gap(p, s), NewLine(p, s)) == Some((EchoLine(p, q, s), ReadCol(p, s), ps[|ps| - 1]))
  {
    if NewLine(p, s) {
      assert rd(ps[0]) == Some((PlaceNumbers(p, s)[0], ps[1]));
      assert rd(ps[1]) == Some((PlaceNumbers(p, s)[1], ps[2]));
      SubThenAdd(s.startCol, 1);
    }
  }

  /** A column moved by a zigzagged shift lands where it was measured. */
  lemma ColEcho(col: u32, target: u32, x: int)
    requires x == target - col
    ensures -I63 <= x < I63 && (col + UnZigZag(ZigZag(x) % U64)) % U32 == target
  {
    hide ZigZag, UnZigZag;
    ZigZagInverts(x, 0);
    assert ZigZag(x) % U64 == ZigZag(x);
  }

  lemma IrregularSpanEcho(p: Prev, q: Prev, s: Span)
    ensures IrregularSpan(s.start, EchoLine(p, q, s), ReadCol(p, s), ZigZag(Shift(p, s)), Sub32(s.endLine, s.startLine), s.endCol, Sub32(s.end, s.start))
            == EchoSpan(p, q, s)
  {
    hide ZigZag, UnZigZag;
    ColEcho(ReadCol(p, s), s.startCol, Shift(p, s));
    SubThenAdd(s.end, s.start);
    TruncKeeps(Sub32(s.end, s.start));
    TruncKeeps(Sub32(s.endLine, s.startLine));
    TruncKeeps(s.endCol);
  }

  lemma TruncKeeps(x: u32)
    ensures Trunc32(x) == x
  {
  }

  lemma IrregularEcho(rd: Reader, p: Prev, q: Prev, s: Span, ps: seq<nat>)
    requires Reads(rd, ps, IrregularNumbers(p, s))
    ensures DecodeIrregular(rd, ps[0], s.start, EchoLine(p, q, s), ReadCol(p, s)) == Some((EchoSpan(p, q, s), ps[4]))
  {
    var ns := IrregularNumbers(p, s);
    assert rd(ps[0]) == Some((ns[0], ps[1]));
    assert rd(ps[1]) == Some((ns[1], ps[2]));
    assert rd(ps[2]) == Some((ns[2], ps[3]));
    assert rd(ps[3]) == Some((ns[3], ps[4]));
    IrregularSpanEcho(p, q, s);
  }

  lemma HeadFields(term: u32, code: nat, irr: nat)
    requires code < 8 && irr < 2
    ensures var v := term * 16 + code * 2 + irr; Trunc32(v / 16) == term && v / 2 % 8 == code && v % 2 == irr && v < U64
  {
  }

  lemma RegularEcho(p: Prev, q: Prev, t: Tok, lens: Lens)
    requires InStep(p, q) && Regular(p, t, lens)
    ensures var s, line := t.span, EchoLine(p, q, t.span);
            Span(s.start, Add32(s.start, lens(t.term).0), line, ReadCol(p, s), line, Add32(ReadCol(p, s), lens(t.term).1)) == EchoSpan(p, q, s)
  {
    SubThenAdd(t.span.end, t.span.start);
  }

  /** The numbers of a token after its head. */
  function SpanNumbers(p: Prev, t: Tok, lens: Lens): seq<nat> {
    PlaceNumbers(p, t.span) + if Regular(p, t, lens) then [] else IrregularNumbers(p, t.span)
  }

  lemma SpanReadBack(rd: Reader, p: Prev, q: Prev, t: Tok, lens: Lens, ps: seq<nat>)
    requires InStep(p, q) && Reads(rd, ps, SpanNumbers(p, t, lens))
    ensures DecodeSpan(rd, ps[0], q, Gap(p, t.span), NewLine(p, t.span), !Regular(p, t, lens), lens(t.term))
            == Some((EchoSpan(p, q, t.span), ps[|ps| - 1]))
  {
    var s, ns := t.span, SpanNumbers(p, t, lens);
    var k := |PlaceNumbers(p, s)|;
    ReadsPart(rd, ps, ns, 0, k);
    assert ns[0..k] == PlaceNumbers(p, s);
    PlaceEcho(rd, p, q, s, ps[0..k + 1]);
    SubThenAdd(s.start, p.end);
    if Regular(p, t, lens) {
      RegularEcho(p, q, t, lens);
    } else {
      ReadsPart(rd, ps, ns, k, k + 4);
      assert ns[k..k + 4] == IrregularNumbers(p, s);
      IrregularEcho(rd, p, q, s, ps[k..k + 5]);
    }
  }

  /** The head of a token: its term and class, and whether it is irregular. */
  predicate HeadSays(v: nat, t: Tok, irr: bool) {
    Trunc32(v / 16) == t.term && ClassOf(v / 2 % 8) == Some(t.kind) && (v % 2 == 1 <==> irr)
  }

  predicate PlaceSays(v: nat, gap: u32, nl: bool) {
    Trunc32(v / 2) == gap && (v % 2 == 1 <==> nl)
  }

  lemma HeadIs(t: Tok, irr: bool)
    ensures HeadSays(t.term * 16 + ClassCode(t.kind) * 2 + Bit(irr), t, irr)
  {
    HeadFields(t.term, ClassCode(t.kind), Bit(irr));
  }

  lemma PlaceIs(gap: u32, nl: bool)
    ensures PlaceSays(gap * 2 + Bit(nl), gap, nl)
  {
  }

  lemma TokFromParts(rd: Reader, ps: seq<nat>, head: nat, place: nat, q: Prev, t: Tok, gap: u32, nl: bool, irr: bool, lens: Lens, span: Span, next: nat)
    requires |ps| >= 3 && rd(ps[0]) == Some((head, ps[1])) && rd(ps[1]) == Some((place, ps[2]))
    requires HeadSays(head, t, irr) && PlaceSays(place, gap, nl)
    requires DecodeSpan(rd, ps[2], q, gap, nl, irr, lens(t.term)) == Some((span, next))
    ensures DecodeTok(rd, ps[0], q, lens) == Some((Tok(t.term, t.kind, span), next))
  {
  }

  /** One token read back from its numbers. */
  lemma TokReadBack(rd: Reader, p: Prev, q: Prev, t: Tok, lens: Lens, ps: seq<nat>)
    requires InStep(p, q) && Reads(rd, ps, Numbers(p, t, lens))
    ensures DecodeTok(rd, ps[0], q, lens) == Some((Echo(p, q, t), ps[|ps| - 1]))
  {
    var ns, irr := Numbers(p, t, lens), !Regular(p, t, lens);
    var gap, nl := Gap(p, t.span), NewLine(p, t.span);
    HeadIs(t, irr);
    PlaceIs(gap, nl);
    assert rd(ps[0]) == Some((ns[0], ps[1]));
    assert rd(ps[1]) == Some((ns[1], ps[2]));
    SpanOfNumbers(rd, p, q, t, lens, ps, ns);
    TokFromParts(rd, ps, ns[0], ns[1], q, t, gap, nl, irr, lens, EchoSpan(p, q, t.span), ps[|ps| - 1]);
  }

  lemma SpanOfNumbers(rd: Reader, p: Prev, q: Prev, t: Tok, lens: Lens, ps: seq<nat>, ns: seq<nat>)
    requires InStep(p, q) && ns == Numbers(p, t, lens) && Reads(rd, ps, ns)
    ensures |ns| >= 2
    ensures DecodeSpan(rd, ps[2], q, Gap(p, t.span), NewLine(p, t.span), !Regular(p, t, lens), lens(t.term))
            == Some((EchoSpan(p, q, t.span), ps[|ps| - 1]))
  {
    ReadsPart(rd, ps, ns, 2, |ns|);
    assert ns[2..|ns|] == SpanNumbers(p, t, lens);
    SpanReadBack(rd, p, q, t, lens, ps[2..|ns| + 1]);
  }

  lemma NumbersFit(p: Prev, t: Tok, lens: Lens)
    ensures forall i :: 0 <= i < |Numbers(p, t, lens)| ==> Numbers(p, t, lens)[i] < U64
  {
    hide ZigZag;
    HeadFields(t.term, ClassCode(t.kind), Bit(!Regular(p, t, lens)));
    ZigZagIs(Shift(p, t.span));
  }

  /** One token read back from its bytes, and exactly its bytes consumed. */
  lemma TokEcho(b: seq<Byte>, pos: nat, p: Prev, q: Prev, t: Tok, lens: Lens)
    requires InStep(p, q) && At(b, pos, EncodeTok(p, t, lens))
    ensures DecodeTok(ReaderOf(b), pos, q, lens) == Some((Echo(p, q, t), pos + |EncodeTok(p, t, lens)|))
  {
    NumbersFit(p, t, lens);
    var ps := VarintsRead(b, pos, Numbers(p, t, lens));
    TokReadBack(ReaderOf(b), p, q, t, lens, ps);
  }

  /** What a decoder starting at `q` makes of tokens encoded after `p`. */
  function Echoes(p: Prev, q: Prev, toks: seq<Tok>): (r: seq<Tok>)
    ensures |r| == |toks|
    decreases toks
  {
    if toks == [] then []
    else
      var e := Echo(p, q, toks[0]);
      [e] + Echoes(EndOf(toks[0].span), EndOf(e.span), toks[1..])
  }

  /** The reader undoes the writer, token by token, wherever it meets it. */
  ghost predicate Undoes(b: seq<Byte>, rd: TokReader, w: Writer) {
    forall pos: nat, p: Prev, q: Prev, t: Tok ::
      InStep(p, q) && At(b, pos, w(p, t)) ==> rd(pos, q) == Some((Echo(p, q, t), pos + |w(p, t)|))
  }

  lemma {:induction false} ToksEcho(b: seq<Byte>, rd: TokReader, w: Writer, pos: nat, p: Prev, q: Prev, toks: seq<Tok>)
    requires Undoes(b, rd, w) && InStep(p, q) && At(b, pos, EncodeToks(w, p, toks))
    ensures DecodeToks(rd, pos, |toks|, q) == Some(Echoes(p, q, toks))
    decreases toks
  {
    if toks == [] {
    } else {
      var t, e := toks[0], Echo(p, q, toks[0]);
      AtSplits(b, pos, w(p, t), EncodeToks(w, EndOf(t.span), toks[1..]));
      ToksEcho(b, rd, w, pos + |w(p, t)|, EndOf(t.span), EndOf(e.span), toks[1..]);
    }
  }

  lemma UndoesTok(b: seq<Byte>, lens: Lens, rd: TokReader, w: Writer, pos: nat, p: Prev, q: Prev, t: Tok)
    requires rd == TokReaderOf(b, lens) && w == WriterOf(lens) && InStep(p, q) && At(b, pos, w(p, t))
    ensures rd(pos, q) == Some((Echo(p, q, t), pos + |w(p, t)|))
  {
    TokEcho(b, pos, p, q, t, lens);
  }

  lemma CodecUndoes(b: seq<Byte>, lens: Lens, rd: TokReader, w: Writer)
    requires rd == TokReaderOf(b, lens) && w == WriterOf(lens)
    ensures Undoes(b, rd, w)
  {
    forall pos: nat, p: Prev, q: Prev, t: Tok | InStep(p, q) && At(b, pos, w(p, t))
      ensures rd(pos, q) == Some((Echo(p, q, t), pos + |w(p, t)|))
    {
      UndoesTok(b, lens, rd, w, pos, p, q, t);
    }
  }

  /** A count and that many encoded tokens. */
  lemma CountedEcho(b: seq<Byte>, head: seq<Byte>, body: seq<Byte>, toks: seq<Tok>, lens: Lens)
    requires b == head + body && head == Varint(|toks|) && body == EncodeToks(WriterOf(lens), START, toks) && |toks| < U64
    ensures DecodeStream(b, lens) == Some(Echoes(START, START, toks))
  {
    assert b[0..|head + body|] == head + body;
    AtSplits(b, 0, head, body);
    GetVarint(b, 0, |toks|);
    CodecUndoes(b, lens, TokReaderOf(b, lens), WriterOf(lens));
    ToksEcho(b, TokReaderOf(b, lens), WriterOf(lens), |head|, START, START, toks);
  }

  /** Decoding an encoded stream: every token comes back, on the decoder's lines. */
  lemma StreamEcho(toks: seq<Tok>, lens: Lens)
    requires |toks| < U64
    ensures DecodeStream(EncodeStream(toks, lens), lens) == Some(Echoes(START, START, toks))
  {
    CountedEcho(EncodeStream(toks, lens), Varint(|toks|), EncodeToks(WriterOf(lens), START, toks), toks, lens);
  }

  /** No token starts on an earlier line than the one before it ends on. */
  predicate MonotoneLines(p: Prev, toks: seq<Tok>)
    decreases toks
  {
    toks == [] || (p.line <= toks[0].span.startLine && MonotoneLines(EndOf(toks[0].span), toks[1..]))
  }

  lemma EchoIsExact(p: Prev, t: Tok)
    ensures Echo(p, p, t) == t <==> p.line <= t.span.startLine
  {
    SubThenAdd(t.span.endLine, t.span.startLine);
  }

  lemma {:induction false} EchoesAreExact(p: Prev, toks: seq<Tok>)
    ensures Echoes(p, p, toks) == toks <==> MonotoneLines(p, toks)
    decreases toks
  {
    if toks == [] {
    } else {
      EchoIsExact(p, toks[0]);
      if p.line <= toks[0].span.startLine {
        EchoesAreExact(EndOf(toks[0].span), toks[1..]);
        assert Echoes(p, p, toks)[1..] == Echoes(EndOf(toks[0].span), EndOf(toks[0].span), toks[1..]);
        assert toks == [toks[0]] + toks[1..];
      } else {
        assert Echoes(p, p, toks)[0] != toks[0];
      }
    }
  }

  /** The codec gives a token list back exactly when its lines never go backwards,
      irregular and multi-line tokens included. */
  lemma StreamRoundTrip(toks: seq<Tok>, lens: Lens)
    requires |toks| < U64
    ensures DecodeStream(EncodeStream(toks, lens), lens) == Some(toks) <==> MonotoneLines(START, toks)
  {
    StreamEcho(toks, lens);
    EchoesAreExact(START, toks);
  }

  predicate SameButLines(t: Tok, u: Tok) {
    u == t.(span := t.span.(startLine := u.span.startLine, endLine := u.span.endLine))
  }

  lemma {:induction false} EchoesKeep(p: Prev, q: Prev, toks: seq<Tok>, k: nat)
    requires k < |toks|
    ensures SameButLines(toks[k], Echoes(p, q, toks)[k])
    decreases toks
  {
    if k == 0 {
    } else {
      EchoesKeep(EndOf(toks[0].span), EndOf(Echo(p, q, toks[0]).span), toks[1..], k - 1);
    }
  }

  /** Whatever the lines do, terms, classes, offsets and columns survive. */
  lemma StreamKeepsAllButLines(toks: seq<Tok>, lens: Lens)
    requires |toks| < U64
    ensures var r := DecodeStream(EncodeStream(toks, lens), lens);
            r.Some? && |r.value| == |toks| && forall k :: 0 <= k < |toks| ==> SameButLines(toks[k], r.value[k])
  {
    StreamEcho(toks, lens);
    forall k | 0 <= k < |toks|
      ensures SameButLines(toks[k], Echoes(START, START, toks)[k])
    {
      EchoesKeep(START, START, toks, k);
    }
  }

  // ---- the loops

  lemma {:induction false} VarintsSnoc(ns: seq<nat>, n: nat)
    ensures Varints(ns + [n]) == Varints(ns) + Varint(n)
  {
    if ns == [] {
      assert ns + [n] == [n] && [n][1..] == [];
    } else {
      assert (ns + [n])[1..] == ns[1..] + [n];
      VarintsSnoc(ns[1..], n);
    }
  }

  method PutAll(v: seq<Byte>, ns: seq<nat>) returns (w: seq<Byte>)
    ensures w == v + Varints(ns)
  {
    w := v;
    for i := 0 to |ns|
      invariant w == v + Varints(ns[..i])
    {
      w := Put(w, ns[i]);
      assert ns[..i + 1] == ns[..i] + [ns[i]];
      VarintsSnoc(ns[..i], ns[i]);
    }
    assert ns[..|ns|] == ns;
  }

  method PutTok(v: seq<Byte>, p: Prev, t: Tok, lens: Lens) returns (w: seq<Byte>)
    ensures w == v + WriterOf(lens)(p, t)
  {
    w := PutAll(v, Numbers(p, t, lens));
  }

  method Encode(toks: seq<Tok>, lens: Lens) returns (v: seq<Byte>)
    ensures v == EncodeStream(toks, lens)
  {
    v := Put([], |toks|);
    var p := START;
    ghost var w, all := WriterOf(lens), EncodeStream(toks, lens);
    for i := 0 to |toks|
      invariant all == v + EncodeToks(w, p, toks[i..])
    {
      EncodeNext(v, w, p, toks, i);
      v := PutTok(v, p, toks[i], lens);
      p := EndOf(toks[i].span);
    }
  }

  lemma EncodeNext(v: seq<Byte>, w: Writer, p: Prev, toks: seq<Tok>, i: nat)
    requires i < |toks|
    ensures v + EncodeToks(w, p, toks[i..]) == v + w(p, toks[i]) + EncodeToks(w, EndOf(toks[i].span), toks[i + 1..])
  {
    assert toks[i..][1..] == toks[i + 1..];
  }

  method NextPlace(c: Cur, p: Prev, gap: u32, nl: bool) returns (r: Option<(u32, u32)>)
    modifies c
    ensures var d := DecodePlace(ReaderOf(c.data), old(c.pos), p, gap, nl);
            (r.Some? <==> d.Some?) && (r.Some? ==> d == Some((r.value.0, r.value.1, c.pos)))
  {
    if !nl {
      return Some((p.line, Add32(p.col, gap)));
    }
    var l := c.Next();
    if l.None? {
      return None;
    }
    var col := c.Next();
    if col.None? {
      return None;
    }
    return Some((Add32(p.line, Trunc32(l.value)), Add32(Trunc32(col.value), 1)));
  }

  method NextIrregular(c: Cur, start: u32, line: u32, col: u32) returns (r: Option<Span>)
    modifies c
    ensures var d := DecodeIrregular(ReaderOf(c.data), old(c.pos), start, line, col);
            (r.Some? <==> d.Some?) && (r.Some? ==> d == Some((r.value, c.pos)))
  {
    var z := c.Next();
    if z.None? {
      return None;
    }
    var el := c.Next();
    if el.None? {
      return None;
    }
    var ec := c.Next();
    if ec.None? {
      return None;
    }
    var len := c.Next();
    if len.None? {
      return None;
    }
    return Some(IrregularSpan(start, line, col, z.value, el.value, ec.value, len.value));
  }

  method NextSpan(c: Cur, p: Prev, gap: u32, nl: bool, irr: bool, text: (nat, nat)) returns (r: Option<Span>)
    modifies c
    ensures var d := DecodeSpan(ReaderOf(c.data), old(c.pos), p, gap, nl, irr, text);
            (r.Some? <==> d.Some?) && (r.Some? ==> d == Some((r.value, c.pos)))
  {
    var place := NextPlace(c, p, gap, nl);
    if place.None? {
      return None;
    }
    var (line, col) := place.value;
    var start := Add32(p.end, gap);
    if irr {
      r := NextIrregular(c, start, line, col);
    } else {
      r := Some(Span(start, Add32(start, text.0), line, col, line, Add32(col, text.1)));
    }
  }

  method NextTok(c: Cur, p: Prev, lens: Lens) returns (r: Option<Tok>)
    modifies c
    ensures var d := TokReaderOf(c.data, lens)(old(c.pos), p);
            (r.Some? <==> d.Some?) && (r.Some? ==> d == Some((r.value, c.pos)))
  {
    var v := c.Next();
    if v.None? {
      return None;
    }
    var g := c.Next();
    var kind := ClassOf(v.value / 2 % 8);
    if g.None? || kind.None? {
      return None;
    }
    var term := Trunc32(v.value / 16);
    var span := NextSpan(c, p, Trunc32(g.value / 2), g.value % 2 == 1, v.value % 2 == 1, lens(term));
    if span.None? {
      return None;
    }
    return Some(Tok(term, kind.value, span.value));
  }

  ghost function Onto(toks: seq<Tok>, rest: Option<seq<Tok>>): Option<seq<Tok>> {
    if rest.None? then None else Some(toks + rest.value)
  }

  lemma OntoNothing(rest: Option<seq<Tok>>)
    ensures Onto([], rest) == rest
  {
    assert rest.Some? ==> [] + rest.value == rest.value;
  }

  lemma OntoNext(toks: seq<Tok>, t: Tok, rest: Option<seq<Tok>>)
    ensures Onto(toks, Onto([t], rest)) == Onto(toks + [t], rest)
  {
    assert rest.Some? ==> toks + ([t] + rest.value) == toks + [t] + rest.value;
  }

  method Decode(b: seq<Byte>, lens: Lens) returns (r: Option<seq<Tok>>)
    ensures r == DecodeStream(b, lens)
  {
    var c := new Cur(b);
    var n := c.Next();
    if n.None? {
      return None;
    }
    var toks: seq<Tok>, p := [], START;
    ghost var rd, from := TokReaderOf(b, lens), c.pos;
    OntoNothing(DecodeToks(rd, from, n.value, START));
    for i := 0 to n.value
      invariant c.data == b
      invariant DecodeToks(rd, from, n.value, START) == Onto(toks, DecodeToks(rd, c.pos, n.value - i, p))
    {
      var t := NextTok(c, p, lens);
      if t.None? {
        return None;
      }
      OntoNext(toks, t.value, DecodeToks(rd, c.pos, n.value - i - 1, EndOf(t.value.span)));
      toks := toks + [t.value];
      p := EndOf(t.value.span);
    }
    assert toks + [] == toks;
    return Some(toks);
  }
}
