/** A stored stream and the term dictionary as it grows (spikes/data-model/spike.rs). */
module Dictionary {
  import opened Tokens
  import opened Codec
  import opened Postings
  import opened Index
  import opened Store

  ghost predicate SameOn(v: Writer, w: Writer, toks: seq<Tok>) {
    forall p: Prev, i :: 0 <= i < |toks| ==> v(p, toks[i]) == w(p, toks[i])
  }

  lemma {:induction false} EncodeAgrees(v: Writer, w: Writer, p: Prev, toks: seq<Tok>)
    requires SameOn(v, w, toks)
    ensures EncodeToks(v, p, toks) == EncodeToks(w, p, toks)
    decreases toks
  {
    if toks == [] {
    } else {
      assert v(p, toks[0]) == w(p, toks[0]);
      EncodeAgrees(v, w, EndOf(toks[0].span), toks[1..]);
    }
  }

  lemma SameLens(p: Prev, t: Tok, l: Lens, m: Lens)
    requires l(t.term) == m(t.term)
    ensures EncodeTok(p, t, l) == EncodeTok(p, t, m)
  {
  }

  /** Only the lengths of the terms that occur matter. */
  lemma StreamAgrees(toks: seq<Tok>, l: Lens, m: Lens)
    requires forall i :: 0 <= i < |toks| ==> l(toks[i].term) == m(toks[i].term)
    ensures EncodeStream(toks, l) == EncodeStream(toks, m)
  {
    forall p: Prev, i | 0 <= i < |toks|
      ensures WriterOf(l)(p, toks[i]) == WriterOf(m)(p, toks[i])
    {
      SameLens(p, toks[i], l, m);
    }
    EncodeAgrees(WriterOf(l), WriterOf(m), START, toks);
  }

  lemma KnownGrows(d: Dict, e: Dict, tk: seq<TokDecl>)
    requires DictOk(d) && DictOk(e) && Extends(d, e) && Known(d, tk)
    ensures Known(e, tk) && IdsIn(e, tk) == IdsIn(d, tk)
  {
    forall i | 0 <= i < |tk|
      ensures tk[i].text in e.ids && e.ids[tk[i].text] == d.ids[tk[i].text]
    {
      var t := d.ids[tk[i].text];
      assert t in d.texts && t in e.texts;
    }
  }

  /** A stored stream is still the stream of its file after the dictionary has grown. */
  lemma BodyGrows(d: Dict, e: Dict, tk: seq<TokDecl>)
    requires DictOk(d) && DictOk(e) && Extends(d, e) && Known(d, tk)
    ensures Known(e, tk) && Body(e, tk) == Body(d, tk)
  {
    KnownGrows(d, e, tk);
    var toks := ToksWith(tk, IdsIn(d, tk));
    forall i | 0 <= i < |toks|
      ensures LensOf(d)(toks[i].term) == LensOf(e)(toks[i].term)
    {
      assert toks[i].term == d.ids[tk[i].text];
    }
    StreamAgrees(toks, LensOf(d), LensOf(e));
  }

  /** Interning a file's texts makes them known, with the ids that are returned. */
  lemma InternedAreKnown(d: Dict, tk: seq<TokDecl>)
    requires DictOk(d) && Fits(InternAll(d, Texts(tk)).0)
    ensures var (e, ids) := InternAll(d, Texts(tk)); DictOk(e) && Extends(d, e) && Known(e, tk) && ids == IdsIn(e, tk)
  {
    var (e, ids) := InternAll(d, Texts(tk));
    InternAllKeeps(d, Texts(tk));
    forall i | 0 <= i < |tk|
      ensures tk[i].text in e.ids && ids[i] == e.ids[tk[i].text]
    {
      assert ids[i] in e.texts && e.texts[ids[i]] == Texts(tk)[i];
    }
  }

  lemma IdsAreTexts(d: Dict, tk: seq<TokDecl>)
    requires DictOk(d) && Known(d, tk)
    ensures forall t :: t in IdsIn(d, tk) ==> t in d.texts
  {
  }

  /** What a stored stream decodes to: every text, class and place, and the lines too exactly
      when they rise. */
  lemma BodyReads(d: Dict, tk: seq<TokDecl>)
    requires DictOk(d) && Known(d, tk) && |tk| < U64
    ensures DecodeStream(Body(d, tk), LensOf(d)).Some?
    ensures var r := Decoded(d, Body(d, tk)); var toks := ToksWith(tk, IdsIn(d, tk));
            && |r| == |tk| && Terms(r) == IdsIn(d, tk)
            && (forall k :: 0 <= k < |tk| ==> SameButLines(toks[k], r[k]))
            && (r == toks <==> MonotoneLines(START, toks))
  {
    var toks := ToksWith(tk, IdsIn(d, tk));
    StreamKeepsAllButLines(toks, LensOf(d));
    StreamRoundTrip(toks, LensOf(d));
    var r := Decoded(d, Body(d, tk));
    forall k | 0 <= k < |tk|
      ensures Terms(r)[k] == IdsIn(d, tk)[k]
    {
      assert SameButLines(toks[k], r[k]);
    }
    assert Terms(r) == IdsIn(d, tk);
  }
}
