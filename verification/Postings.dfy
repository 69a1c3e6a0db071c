/**
 The inverted index of the prototype store (spikes/data-model/spike.rs): the term
 dictionary, the posting of a term in a file, and when the postings agree with the streams.
 */
module Postings {
  import opened Options
  import opened Tokens
  import opened Codec

  // ---- the term dictionary

  datatype Dict = Dict(ids: map<string, u32>, texts: map<u32, string>, next: nat)

  /** No more texts than 32-bit ids. */
  predicate Fits(d: Dict) {
    d.next <= U32
  }

  /** Every text is in the dictionary once, and the counter is their number. */
  predicate Counted(d: Dict) {
    d.next == |d.ids|
  }

  /** The two tables are inverse, and ids are handed out in order. */
  ghost predicate DictOk(d: Dict) {
    && Fits(d)
    && (forall s :: s in d.ids ==> d.ids[s] in d.texts && d.texts[d.ids[s]] == s)
    && Counted(d)
    && (forall t :: t in d.texts ==> t < d.next && d.texts[t] in d.ids && d.ids[d.texts[t]] == t)
  }

  /** The id of a text, a new one if it has none; `next_term` is a 32-bit counter, so a new id
      is the number of texts so far, truncated. */
  function Intern(d: Dict, text: string): (r: (Dict, u32))
    ensures d.next <= r.0.next
  {
    if text in d.ids then (d, d.ids[text])
    else
      var id := d.next % U32;
      (Dict(d.ids[text := id], d.texts[id := text], d.next + 1), id)
  }

  function InternAll(d: Dict, texts: seq<string>): (r: (Dict, seq<u32>))
    ensures d.next <= r.0.next && |r.1| == |texts|
  {
    if texts == [] then (d, [])
    else
      var (d1, ids) := InternAll(d, texts[..|texts| - 1]);
      var (d2, id) := Intern(d1, texts[|texts| - 1]);
      (d2, ids + [id])
  }

  /** Nothing the dictionary knew changes. */
  predicate Extends(d: Dict, e: Dict) {
    && d.next <= e.next
    && (forall t :: t in d.texts ==> t in e.texts && e.texts[t] == d.texts[t])
  }

  lemma InternKeeps(d: Dict, text: string)
    requires DictOk(d) && Fits(Intern(d, text).0)
    ensures var (e, id) := Intern(d, text); DictOk(e) && Extends(d, e) && id in e.texts && e.texts[id] == text
  {
  }

  /** Interning a file's texts gives each token the id of its text. */
  lemma {:induction false} InternAllKeeps(d: Dict, texts: seq<string>)
    requires DictOk(d) && Fits(InternAll(d, texts).0)
    ensures var (e, ids) := InternAll(d, texts);
            DictOk(e) && Extends(d, e) && forall i :: 0 <= i < |texts| ==> ids[i] in e.texts && e.texts[ids[i]] == texts[i]
  {
    if texts == [] {
    } else {
      var front := texts[..|texts| - 1];
      InternAllKeeps(d, front);
      InternKeeps(InternAll(d, front).0, texts[|texts| - 1]);
    }
  }

  /** These texts and those it has do not outnumber the ids. */
  predicate HasRoom(d: Dict, texts: set<string>) {
    |d.ids.Keys + texts| <= U32
  }

  function TextSet(texts: seq<string>): set<string> {
    set s | s in texts
  }

  /** `e` is `d` with exactly these texts, each counted once. */
  predicate Adds(d: Dict, e: Dict, texts: set<string>) {
    Counted(d) ==> Counted(e) && e.ids.Keys == d.ids.Keys + texts
  }

  lemma AddsThen(d: Dict, e: Dict, f: Dict, x: set<string>, y: set<string>)
    requires Adds(d, e, x) && Adds(e, f, y)
    ensures Adds(d, f, x + y)
  {
  }

  lemma TextSetSnoc(texts: seq<string>, text: string)
    ensures TextSet(texts + [text]) == TextSet(texts) + {text}
  {
  }

  lemma InternCounts(d: Dict, text: string)
    ensures Adds(d, Intern(d, text).0, {text})
  {
    if text !in d.ids {
      assert Intern(d, text).0.ids.Keys == d.ids.Keys + {text};
    }
  }

  /** Interning adds exactly the texts, whether or not their ids fit. */
  lemma {:induction false} InternAllCounts(d: Dict, texts: seq<string>)
    ensures Adds(d, InternAll(d, texts).0, TextSet(texts))
  {
    if texts == [] {
      assert TextSet(texts) == {};
    } else {
      var front, last := texts[..|texts| - 1], texts[|texts| - 1];
      var e := InternAll(d, front).0;
      InternAllCounts(d, front);
      InternCounts(e, last);
      AddsThen(d, e, Intern(e, last).0, TextSet(front), {last});
      TextSetSnoc(front, last);
      assert texts == front + [last];
    }
  }

  method InternLoop(d: Dict, texts: seq<string>) returns (e: Dict, ids: seq<u32>)
    ensures (e, ids) == InternAll(d, texts)
  {
    e, ids := d, [];
    for i := 0 to |texts|
      invariant (e, ids) == InternAll(d, texts[..i])
    {
      assert texts[..i + 1][..i] == texts[..i];
      var id;
      if texts[i] in e.ids {
        id := e.ids[texts[i]];
      } else {
        id := e.next % U32;
        e := Dict(e.ids[texts[i] := id], e.texts[id := texts[i]], e.next + 1);
      }
      ids := ids + [id];
    }
    assert texts[..|texts|] == texts;
  }

  // ---- postings

  /** Where `t` occurs, in order. */
  function Ordinals(ts: seq<u32>, t: u32): seq<nat> {
    if ts == [] then []
    else Ordinals(ts[..|ts| - 1], t) + if ts[|ts| - 1] == t then [|ts| - 1] else []
  }

  lemma {:induction false} OrdinalsAre(ts: seq<u32>, t: u32)
    ensures Ascending(Ordinals(ts, t))
    ensures forall i :: i in Ordinals(ts, t) <==> 0 <= i < |ts| && ts[i] == t
  {
    if ts == [] {
    } else {
      var front := Ordinals(ts[..|ts| - 1], t);
      OrdinalsAre(ts[..|ts| - 1], t);
      forall k | 0 <= k < |front|
        ensures front[k] < |ts| - 1
      {
        assert front[k] in front;
      }
    }
  }

  lemma OrdinalsNonEmpty(ts: seq<u32>, t: u32)
    ensures Ordinals(ts, t) != [] <==> t in ts
  {
    OrdinalsAre(ts, t);
    if Ordinals(ts, t) != [] {
      assert Ordinals(ts, t)[0] in Ordinals(ts, t);
    }
    if i :| 0 <= i < |ts| && ts[i] == t {
      assert i in Ordinals(ts, t);
    }
  }

  predicate Ascending(ords: seq<nat>) {
    forall i, j :: 0 <= i < j < |ords| ==> ords[i] < ords[j]
  }

  /** The differences, the first from `prev`. */
  function Deltas(prev: nat, ords: seq<nat>): (r: seq<nat>)
    requires Ascending(ords) && (ords != [] ==> prev <= ords[0])
    ensures |r| == |ords|
    decreases ords
  {
    if ords == [] then [] else [ords[0] - prev] + Deltas(ords[0], ords[1..])
  }

  function Sums(prev: nat, ds: seq<nat>): seq<nat>
    decreases ds
  {
    if ds == [] then [] else [prev + ds[0]] + Sums(prev + ds[0], ds[1..])
  }

  /** The bytes of a posting: a count and the deltas. */
  function Posting(ords: seq<nat>): seq<Byte>
    requires Ascending(ords)
  {
    Varint(|ords|) + Varints(Deltas(0, ords))
  }

  lemma {:induction false} SumsOfDeltas(prev: nat, ords: seq<nat>)
    requires Ascending(ords) && (ords != [] ==> prev <= ords[0])
    ensures Sums(prev, Deltas(prev, ords)) == ords
    ensures forall i :: 0 <= i < |ords| ==> Deltas(prev, ords)[i] <= ords[i]
    decreases ords
  {
    if ords == [] {
    } else {
      var rest := ords[1..];
      SumsOfDeltas(ords[0], rest);
      assert Deltas(prev, ords)[1..] == Deltas(ords[0], rest);
      assert forall i :: 0 < i < |ords| ==> Deltas(prev, ords)[i] == Deltas(ords[0], rest)[i - 1] && ords[i] == rest[i - 1];
    }
  }

  /** Reading a posting gives the count first, and the deltas sum back to the ordinals. */
  lemma PostingReads(ords: seq<nat>) returns (ps: seq<nat>)
    requires Ascending(ords) && |ords| < U64 && forall i :: 0 <= i < |ords| ==> ords[i] < U64
    ensures Reads(ReaderOf(Posting(ords)), ps, Deltas(0, ords))
    ensures Get(Posting(ords), 0) == Some((|ords|, ps[0])) && ps[|ords|] == |Posting(ords)|
    ensures Sums(0, Deltas(0, ords)) == ords
  {
    var b, head, body := Posting(ords), Varint(|ords|), Varints(Deltas(0, ords));
    assert b[0..|head + body|] == head + body;
    AtSplits(b, 0, head, body);
    GetVarint(b, 0, |ords|);
    SumsOfDeltas(0, ords);
    ps := VarintsRead(b, |head|, Deltas(0, ords));
  }
}
