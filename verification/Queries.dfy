/**
 `search` over the tables of the prototype store (spikes/data-model/spike.rs): through the
 postings, or over every stream when the text is a stop word.
 */
module Queries {
  import opened Options
  import opened Tokens
  import opened Codec
  import opened Postings
  import opened Index
  import opened Containment
  import S = Search
  import opened Store
  import opened Dictionary
  import opened Tree
  import opened Histories

  // ---- what is looked up

  /** Every record `search` unwraps for the file is there. */
  predicate Describable(ent: Ents, fid: nat) {
    && WhereOf(ent, fid).Some? && ent[fid].File?
    && forall s :: ent[fid].firstSym <= s < ent[fid].firstSym + ent[fid].nsym ==> s in ent && ent[s].Symbol?
  }

  function InfoOf(ent: Ents, fid: nat): S.FileInfo
    requires Describable(ent, fid)
  {
    var w, e := WhereOf(ent, fid).value, ent[fid];
    S.FileInfo(w.org, w.repo, w.path, e.lang,
               seq(e.nsym, i requires 0 <= i < e.nsym =>
                 assert e.firstSym <= e.firstSym + i < e.firstSym + e.nsym;
                 var d := ent[e.firstSym + i].decl;
                 S.Sym(e.firstSym + i, d.kind, Range(d.span.start, d.span.end))))
  }

  ghost predicate AllDescribable(ent: Ents, stream: Streams) {
    forall f :: f in stream ==> Describable(ent, f)
  }

  ghost function LibraryOf(t: Tables): (l: S.Library)
    requires AllDescribable(t.ent, t.stream)
    ensures S.ValidLibrary(l)
  {
    S.Library(map f | f in t.stream :: InfoOf(t.ent, f), map f | f in t.stream :: Decoded(t.dict, t.stream[f]))
  }

  /** The files with a posting for `tid`, and the count each posting starts with. */
  function PostCounts(post: Posts, tid: u32): map<nat, nat> {
    map f | f in (set k | k in post && k.0 == tid :: k.1) :: CountOf(post[(tid, f)])
  }

  function CountOf(b: seq<Byte>): nat {
    var r := Get(b, 0);
    if r.Some? then r.value.0 else 0
  }

  // ---- the two searches

  predicate ThroughPostings(c: Config, q: S.Query) {
    c.allPostings || q.text !in c.stop
  }

  /** Everything `search` unwraps is there. */
  ghost predicate Searchable(t: Tables) {
    AllDescribable(t.ent, t.stream) && forall k :: k in t.post ==> k.1 in t.stream
  }

  ghost function Searched(c: Config, t: Tables, q: S.Query): S.Rows
    requires Searchable(t)
  {
    if q.text !in t.dict.ids then map[]
    else if ThroughPostings(c, q) then
      var tid := t.dict.ids[q.text];
      S.Collect(q, tid, LibraryOf(t), PostCounts(t.post, tid).Keys, PostCounts(t.post, tid), t.next)
    else ByScan(t, q)
  }

  ghost function ByScan(t: Tables, q: S.Query): S.Rows
    requires AllDescribable(t.ent, t.stream)
  {
    if q.text !in t.dict.ids then map[]
    else S.Collect(q, t.dict.ids[q.text], LibraryOf(t), t.stream.Keys, map[], t.next)
  }

  // ---- they agree

  lemma CountOfPosting(ts: seq<u32>, t: u32)
    requires |ts| < U64
    ensures CountOf(PostingOf(ts, t)) == |Ordinals(ts, t)|
  {
    OrdinalsAre(ts, t);
    var ords := Ordinals(ts, t);
    forall i | 0 <= i < |ords|
      ensures ords[i] < |ts|
    {
      assert ords[i] in ords;
    }
    FewOrdinals(ts, t);
    var _ := PostingReads(ords);
  }

  lemma {:induction false} FewOrdinals(ts: seq<u32>, t: u32)
    ensures |Ordinals(ts, t)| <= |ts|
  {
    if ts == [] {
    } else {
      FewOrdinals(ts[..|ts| - 1], t);
    }
  }

  lemma StreamsAreDescribed(t: Tables, slots: Slots)
    requires TreeOk(t, slots, None) && t.stream.Keys == slots.Keys
    ensures AllDescribable(t.ent, t.stream)
  {
    forall f | f in t.stream
      ensures Describable(t.ent, f)
    {
      assert FileHolds(t.ent, f, slots[f]);
      EveryFileIsSomewhere(t.next, t.names, t.ent, f);
    }
  }

  /** In every state a history reaches nothing `search` unwraps is missing. */
  lemma AlwaysSearchable(c: Config, t: Tables, slots: Slots)
    requires Inv(c, t, slots, None)
    ensures Searchable(t)
  {
    StreamsAreDescribed(t, slots);
  }

  lemma FilePostings(c: Config, d: Dict, live: Live, post: Posts, tid: u32, f: nat)
    requires IndexOk(c, d, Deltaed(), live, post) && Indexed(c, d, tid) && f in live && |live[f]| < U64
    ensures (tid, f) in post <==> tid in live[f]
    ensures tid in live[f] ==> CountOf(post[(tid, f)]) == |Ordinals(live[f], tid)|
  {
    assert FileIndexed(c, d, Deltaed(), post, f, live[f]);
    CountOfPosting(live[f], tid);
  }

  predicate CountAgrees(post: Posts, tid: u32, toks: map<nat, seq<Tok>>, f: nat) {
    && ((tid, f) in post <==> f in toks && tid in Terms(toks[f]))
    && ((tid, f) in post ==> CountOf(post[(tid, f)]) == |Ordinals(Terms(toks[f]), tid)|)
  }

  lemma CountsAreCounts(post: Posts, l: S.Library, tid: u32)
    requires forall f: nat :: CountAgrees(post, tid, l.toks, f)
    ensures PostCounts(post, tid) == S.Counts(l, tid)
  {
    var x, y := PostCounts(post, tid), S.Counts(l, tid);
    forall f: nat
      ensures f in x <==> f in y
      ensures f in x ==> x[f] == y[f]
    {
      assert CountAgrees(post, tid, l.toks, f);
      if (tid, f) in post {
        assert (tid, f).1 in set k | k in post && k.0 == tid :: k.1;
      }
    }
  }

  lemma FileCountAgrees(c: Config, d: Dict, stream: Streams, post: Posts, slots: Slots, toks: map<nat, seq<Tok>>, tid: u32, f: nat)
    requires BodiesOk(c, d, stream, post, slots) && Indexed(c, d, tid)
    requires toks.Keys == stream.Keys && (f in stream ==> toks[f] == Decoded(d, stream[f]))
    ensures CountAgrees(post, tid, toks, f)
  {
    if f in slots {
      TermsRead(d, stream, slots, f);
      assert Stored(d, stream[f], slots[f].item.tokens);
      FilePostings(c, d, LiveIn(d, slots), post, tid, f);
    }
  }

  /** `l` is what the tables hold. */
  ghost predicate IsLibrary(d: Dict, stream: Streams, l: S.Library) {
    l.info.Keys == l.toks.Keys == stream.Keys && forall f :: f in stream ==> l.toks[f] == Decoded(d, stream[f])
  }

  lemma LibraryIs(t: Tables)
    requires AllDescribable(t.ent, t.stream)
    ensures IsLibrary(t.dict, t.stream, LibraryOf(t))
  {
  }

  /** The postings of an indexed term list the files whose streams hold it, with the number
      of times they do. */
  lemma PostingsAreCounts(c: Config, d: Dict, stream: Streams, post: Posts, slots: Slots, l: S.Library, tid: u32)
    requires BodiesOk(c, d, stream, post, slots) && IsLibrary(d, stream, l) && Indexed(c, d, tid)
    ensures PostCounts(post, tid) == S.Counts(l, tid)
  {
    forall f: nat
      ensures CountAgrees(post, tid, l.toks, f)
    {
      FileCountAgrees(c, d, stream, post, slots, l.toks, tid, f);
    }
    CountsAreCounts(post, l, tid);
  }

  /** `search` through the postings and `search` by scanning every stream give the same rows
      and counts. */
  lemma SearchAgrees(c: Config, t: Tables, slots: Slots, q: S.Query)
    requires Inv(c, t, slots, None) && Searchable(t)
    ensures Searched(c, t, q) == ByScan(t, q)
  {
    if q.text in t.dict.ids && ThroughPostings(c, q) {
      var tid := t.dict.ids[q.text];
      assert Indexed(c, t.dict, tid);
      LibraryIs(t);
      PostingsAreCounts(c, t.dict, t.stream, t.post, slots, LibraryOf(t), tid);
      S.PostingsAgreeWithScan(q, tid, LibraryOf(t), t.next);
    }
  }

  // ---- over every history

  /** After every history `search` finds everything it unwraps, and the postings give the
      same rows and counts as scanning the streams, for every query. */
  lemma SearchAgreesAlways(c: Config, ops: seq<Op>, q: S.Query)
    requires |Vocabulary(ops)| <= U32
    ensures Searchable(Run(c, ops)) && Searched(c, Run(c, ops), q) == ByScan(Run(c, ops), q)
  {
    var slots := RunHolds(c, ops);
    AlwaysSearchable(c, Run(c, ops), slots);
    SearchAgrees(c, Run(c, ops), slots, q);
  }

  /** Where a text occurs. */
  function TextOrdinals(tk: seq<TokDecl>, text: string): seq<nat> {
    if tk == [] then []
    else TextOrdinals(tk[..|tk| - 1], text) + if tk[|tk| - 1].text == text then [|tk| - 1] else []
  }

  lemma {:induction false} SameOrdinals(d: Dict, tk: seq<TokDecl>, text: string)
    requires DictOk(d) && Known(d, tk) && text in d.ids
    ensures Ordinals(IdsIn(d, tk), d.ids[text]) == TextOrdinals(tk, text)
  {
    if tk == [] {
    } else {
      var front := tk[..|tk| - 1];
      SameOrdinals(d, front, text);
      assert IdsIn(d, tk)[..|tk| - 1] == IdsIn(d, front);
    }
  }

  lemma OccursIff(d: Dict, tk: seq<TokDecl>, text: string)
    requires DictOk(d) && Known(d, tk)
    ensures text in Texts(tk) ==> text in d.ids
    ensures text in d.ids ==> (d.ids[text] in IdsIn(d, tk) <==> text in Texts(tk))
  {
    var ids := IdsIn(d, tk);
    if text in d.ids && d.ids[text] in ids {
      var i :| 0 <= i < |ids| && ids[i] == d.ids[text];
      assert Texts(tk)[i] == text;
    }
    if text in Texts(tk) {
      var i :| 0 <= i < |tk| && Texts(tk)[i] == text;
      assert tk[i].text in d.ids && ids[i] == d.ids[text];
    }
  }

  /** The posting the tables hold for a text in a file. */
  function PostingIn(d: Dict, post: Posts, text: string, f: nat): Option<seq<Byte>> {
    if text in d.ids && (d.ids[text], f) in post then Some(post[(d.ids[text], f)]) else None
  }

  function PostingFor(c: Config, tk: seq<TokDecl>, text: string): Option<seq<Byte>> {
    if text !in Texts(tk) || !(c.allPostings || text !in c.stop) then None
    else
      TextOrdinalsRise(tk, text);
      Some(Posting(TextOrdinals(tk, text)))
  }

  lemma {:induction false} TextOrdinalsRise(tk: seq<TokDecl>, text: string)
    ensures Ascending(TextOrdinals(tk, text))
    ensures forall i :: 0 <= i < |TextOrdinals(tk, text)| ==> TextOrdinals(tk, text)[i] < |tk|
  {
    if tk == [] {
    } else {
      TextOrdinalsRise(tk[..|tk| - 1], text);
    }
  }

  lemma PostingIs(c: Config, d: Dict, fm: Form, post: Posts, text: string, f: nat, ids: seq<u32>)
    requires DictOk(d) && FileIndexed(c, d, fm, post, f, ids)
    ensures PostingIn(d, post, text, f)
            == if text in d.ids && d.ids[text] in ids && (c.allPostings || text !in c.stop) then Some(fm(ids, d.ids[text])) else None
  {
  }

  lemma PostingsOfFile(c: Config, d: Dict, stream: Streams, post: Posts, slots: Slots, text: string, f: nat)
    requires BodiesOk(c, d, stream, post, slots) && f in slots
    ensures PostingIn(d, post, text, f) == PostingFor(c, slots[f].item.tokens, text)
  {
    var tk := slots[f].item.tokens;
    assert Stored(d, stream[f], tk);
    PostingIs(c, d, Deltaed(), post, text, f, LiveIn(d, slots)[f]);
    OccursIff(d, tk, text);
    if text in d.ids {
      SameOrdinals(d, tk, text);
    }
  }

  /** After every history: a text has a posting for a file exactly when the last version of the
      file holds it and it is indexed, with exactly the places it occurs at. */
  lemma PostingsAlways(c: Config, ops: seq<Op>, w: Where, text: string)
    requires |Vocabulary(ops)| <= U32
    ensures var t := Run(c, ops);
            && (Find(t.names, w).Some? <==> w in Latest(ops))
            && (w in Latest(ops) ==> PostingIn(t.dict, t.post, text, Find(t.names, w).value) == PostingFor(c, Latest(ops)[w].tokens, text))
  {
    var slots := RunHolds(c, ops);
    var f := FoundIsLatest(c, Run(c, ops), slots, Latest(ops), w);
    if f.Some? {
      var t := Run(c, ops);
      PostingsOfFile(c, t.dict, t.stream, t.post, slots, text, f.value);
    }
  }

  lemma FoundIsLatest(c: Config, t: Tables, slots: Slots, shelf: Shelf, w: Where) returns (f: Option<nat>)
    requires Holds(c, t, slots, shelf)
    ensures f == Find(t.names, w) && (f.Some? <==> w in shelf)
    ensures f.Some? ==> f.value in slots && slots[f.value].item == shelf[w]
  {
    f := Find(t.names, w);
    if f.Some? {
      FoundIsStored(t, slots, w, f.value);
      assert PlacesOf(t.ent)(f.value) == Some(w);
    } else {
      RepMissing(t, slots, shelf, w);
    }
  }

  /** What a stream says of a file's tokens. */
  ghost predicate StreamTells(d: Dict, r: seq<Tok>, tk: seq<TokDecl>) {
    && |r| == |tk|
    && (forall i :: 0 <= i < |tk| ==>
          && r[i].term in d.texts && d.texts[r[i].term] == tk[i].text && r[i].kind == tk[i].kind
          && r[i].span == tk[i].span.(startLine := r[i].span.startLine, endLine := r[i].span.endLine))
  }

  lemma BodyTells(d: Dict, tk: seq<TokDecl>)
    requires DictOk(d) && Known(d, tk) && |tk| < U64
    ensures StreamTells(d, Decoded(d, Body(d, tk)), tk)
  {
    BodyReads(d, tk);
    var r, toks := Decoded(d, Body(d, tk)), ToksWith(tk, IdsIn(d, tk));
    forall i | 0 <= i < |tk|
      ensures r[i].term in d.texts && d.texts[r[i].term] == tk[i].text && r[i].kind == tk[i].kind
      ensures r[i].span == tk[i].span.(startLine := r[i].span.startLine, endLine := r[i].span.endLine)
    {
      assert SameButLines(toks[i], r[i]);
    }
  }

  /** The line before the `i`th token. */
  function LineBefore(p: nat, tk: seq<TokDecl>, i: nat): nat
    requires i < |tk|
  {
    if i == 0 then p else tk[i - 1].span.endLine
  }

  /** No token starts on an earlier line than the one before it ends on. */
  predicate LinesRise(p: nat, tk: seq<TokDecl>) {
    forall i :: 0 <= i < |tk| ==> LineBefore(p, tk, i) <= tk[i].span.startLine
  }

  lemma {:induction false} MonotoneIsRising(p: Prev, toks: seq<Tok>, tk: seq<TokDecl>)
    requires |toks| == |tk| && forall i :: 0 <= i < |tk| ==> toks[i].span == tk[i].span
    ensures MonotoneLines(p, toks) <==> LinesRise(p.line, tk)
    decreases toks
  {
    if toks == [] {
    } else {
      var q := EndOf(toks[0].span);
      MonotoneIsRising(q, toks[1..], tk[1..]);
      assert LinesRise(p.line, tk) <==> p.line <= tk[0].span.startLine && LinesRise(q.line, tk[1..]) by {
        RisingTail(p.line, tk);
      }
    }
  }

  lemma RisingTail(p: nat, tk: seq<TokDecl>)
    requires tk != []
    ensures LinesRise(p, tk) <==> p <= tk[0].span.startLine && LinesRise(tk[0].span.endLine, tk[1..])
  {
    var rest := tk[1..];
    if LinesRise(p, tk) {
      assert LineBefore(p, tk, 0) <= tk[0].span.startLine;
      forall i | 0 <= i < |rest|
        ensures LineBefore(tk[0].span.endLine, rest, i) <= rest[i].span.startLine
      {
        assert LineBefore(p, tk, i + 1) <= tk[i + 1].span.startLine;
      }
    }
    if p <= tk[0].span.startLine && LinesRise(tk[0].span.endLine, rest) {
      forall i | 0 <= i < |tk|
        ensures LineBefore(p, tk, i) <= tk[i].span.startLine
      {
        if i > 0 {
          assert LineBefore(tk[0].span.endLine, rest, i - 1) <= rest[i - 1].span.startLine;
        }
      }
    }
  }

  predicate SameSpans(r: seq<Tok>, tk: seq<TokDecl>) {
    |r| == |tk| && forall i :: 0 <= i < |tk| ==> r[i].span == tk[i].span
  }

  /** The spans come back whole exactly when the lines rise. */
  lemma BodyTellsLines(d: Dict, tk: seq<TokDecl>)
    requires DictOk(d) && Known(d, tk) && |tk| < U64
    ensures SameSpans(Decoded(d, Body(d, tk)), tk) <==> LinesRise(START.line, tk)
  {
    BodyReads(d, tk);
    var r, toks := Decoded(d, Body(d, tk)), ToksWith(tk, IdsIn(d, tk));
    MonotoneIsRising(START, toks, tk);
    if SameSpans(r, tk) {
      forall i | 0 <= i < |tk|
        ensures r[i] == toks[i]
      {
        assert SameButLines(toks[i], r[i]);
      }
    }
  }

  /** After every history: the stream of a file decodes to the texts, classes, offsets and
      columns of its last version, and to its lines too exactly when those rise. */
  lemma StreamsAlways(c: Config, ops: seq<Op>, w: Where)
    requires |Vocabulary(ops)| <= U32 && w in Latest(ops)
    ensures var t := Run(c, ops);
            && Find(t.names, w).Some? && Find(t.names, w).value in t.stream
            && DecodeStream(t.stream[Find(t.names, w).value], LensOf(t.dict)).Some?
            && StreamTells(t.dict, Decoded(t.dict, t.stream[Find(t.names, w).value]), Latest(ops)[w].tokens)
            && (SameSpans(Decoded(t.dict, t.stream[Find(t.names, w).value]), Latest(ops)[w].tokens)
                <==> LinesRise(START.line, Latest(ops)[w].tokens))
  {
    var slots := RunHolds(c, ops);
    var t := Run(c, ops);
    var f := FoundIsLatest(c, t, slots, Latest(ops), w);
    TermsRead(t.dict, t.stream, slots, f.value);
    assert Stored(t.dict, t.stream[f.value], slots[f.value].item.tokens);
    BodyTells(t.dict, Latest(ops)[w].tokens);
    BodyTellsLines(t.dict, Latest(ops)[w].tokens);
  }
}
