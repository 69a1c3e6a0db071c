/**
 The postings table against the streams table (spikes/data-model/spike.rs): a term has a
 posting for a file exactly when the file's stream contains it and it is not a stop word,
 with exactly its ordinals, through removals and re-ingests.
 */
module Index {
  import opened Options
  import opened Tokens
  import opened Codec
  import opened Postings

  // ---- the terms of a stream do not depend on the dictionary

  function NoLens(): Lens {
    (t: u32) => (0, 0)
  }

  function Terms(toks: seq<Tok>): seq<u32> {
    seq(|toks|, i requires 0 <= i < |toks| => toks[i].term)
  }

  /** The terms of an encoded stream. */
  function TermsOf(b: seq<Byte>): Option<seq<u32>> {
    TermsIn(DecodeStream(b, NoLens()))
  }

  predicate SameHead(x: Option<(Tok, nat)>, y: Option<(Tok, nat)>) {
    && (x.Some? <==> y.Some?)
    && (x.Some? ==> x.value.0.term == y.value.0.term && x.value.0.kind == y.value.0.kind && x.value.1 == y.value.1)
  }

  lemma HeadIgnoresLens(rd: Reader, pos: nat, p: Prev, q: Prev, l: Lens, m: Lens)
    ensures SameHead(DecodeTok(rd, pos, p, l), DecodeTok(rd, pos, q, m))
  {
  }

  ghost predicate Agree(x: TokReader, y: TokReader) {
    forall pos: nat, p: Prev, q: Prev :: SameHead(x(pos, p), y(pos, q))
  }

  predicate SameTerms(x: Option<seq<Tok>>, y: Option<seq<Tok>>) {
    && (x.Some? <==> y.Some?)
    && (x.Some? ==> |x.value| == |y.value| && forall k :: 0 <= k < |x.value| ==>
                      x.value[k].term == y.value[k].term && x.value[k].kind == y.value[k].kind)
  }

  lemma {:induction false} ToksAgree(x: TokReader, y: TokReader, pos: nat, n: nat, p: Prev, q: Prev)
    requires Agree(x, y)
    ensures SameTerms(DecodeToks(x, pos, n, p), DecodeToks(y, pos, n, q))
    decreases n
  {
    if n == 0 {
    } else {
      var t, u := x(pos, p), y(pos, q);
      assert SameHead(t, u);
      if t.Some? {
        ToksAgree(x, y, t.value.1, n - 1, EndOf(t.value.0.span), EndOf(u.value.0.span));
      }
    }
  }

  /** Terms and classes read back the same under any dictionary. */
  lemma TermsIgnoreLens(b: seq<Byte>, l: Lens, m: Lens)
    ensures SameTerms(DecodeStream(b, l), DecodeStream(b, m))
  {
    forall pos: nat, p: Prev, q: Prev
      ensures SameHead(DecodeTok(ReaderOf(b), pos, p, l), DecodeTok(ReaderOf(b), pos, q, m))
    {
      HeadIgnoresLens(ReaderOf(b), pos, p, q, l, m);
    }
    var n := Get(b, 0);
    if n.Some? {
      ToksAgree(TokReaderOf(b, l), TokReaderOf(b, m), n.value.1, n.value.0, START, START);
    }
  }

  function TermsIn(x: Option<seq<Tok>>): Option<seq<u32>> {
    if x.None? then None else Some(Terms(x.value))
  }

  lemma SameTermsIn(x: Option<seq<Tok>>, y: Option<seq<Tok>>, toks: seq<Tok>)
    requires SameTerms(x, y) && x.Some? && |x.value| == |toks|
    requires forall k :: 0 <= k < |toks| ==> SameButLines(toks[k], x.value[k])
    ensures TermsIn(y) == Some(Terms(toks))
  {
    forall k | 0 <= k < |toks|
      ensures Terms(y.value)[k] == Terms(toks)[k]
    {
      assert SameButLines(toks[k], x.value[k]);
    }
    assert Terms(y.value) == Terms(toks);
  }

  /** The terms of what `encode_stream` wrote are the ids it was given. */
  lemma TermsOfEncoded(toks: seq<Tok>, lens: Lens)
    requires |toks| < U64
    ensures TermsOf(EncodeStream(toks, lens)) == Some(Terms(toks))
  {
    var b := EncodeStream(toks, lens);
    StreamKeepsAllButLines(toks, lens);
    TermsIgnoreLens(b, lens, NoLens());
    SameTermsIn(DecodeStream(b, lens), DecodeStream(b, NoLens()), toks);
  }

  // ---- the two tables

  datatype Config = Config(stop: set<string>, allPostings: bool)

  /** The live streams, as the terms they hold. */
  type Live = map<nat, seq<u32>>
  type Posts = map<(u32, nat), seq<Byte>>

  /** How the posting of a term in a file is written. */
  type Form = (seq<u32>, u32) -> seq<Byte>

  /** The term gets postings. */
  predicate Indexed(c: Config, d: Dict, t: u32) {
    t in d.texts && (c.allPostings || d.texts[t] !in c.stop)
  }

  /** What one file contributes to the postings. */
  ghost predicate FileIndexed(c: Config, d: Dict, f: Form, posts: Posts, fid: nat, ts: seq<u32>) {
    && (forall t: u32 :: t in ts ==> t in d.texts)
    && (forall t: u32 :: (t, fid) in posts <==> t in ts && Indexed(c, d, t))
    && (forall t: u32 :: (t, fid) in posts ==> posts[(t, fid)] == f(ts, t))
  }

  ghost predicate IndexOk(c: Config, d: Dict, f: Form, live: Live, posts: Posts) {
    && (forall fid :: fid in live ==> FileIndexed(c, d, f, posts, fid, live[fid]))
    && (forall k :: k in posts ==> k.1 in live)
  }

  lemma IndexedGrows(c: Config, d: Dict, e: Dict, f: Form, posts: Posts, fid: nat, ts: seq<u32>)
    requires FileIndexed(c, d, f, posts, fid, ts) && Extends(d, e)
    ensures FileIndexed(c, e, f, posts, fid, ts)
  {
    forall t: u32 | t in ts
      ensures Indexed(c, e, t) <==> Indexed(c, d, t)
    {
      assert t in d.texts;
    }
  }

  /** New texts leave the index as it is. */
  lemma IndexGrows(c: Config, d: Dict, e: Dict, f: Form, live: Live, posts: Posts)
    requires IndexOk(c, d, f, live, posts) && Extends(d, e)
    ensures IndexOk(c, e, f, live, posts)
  {
    forall fid | fid in live
      ensures FileIndexed(c, e, f, posts, fid, live[fid])
    {
      IndexedGrows(c, d, e, f, posts, fid, live[fid]);
    }
  }

  /** A file none of whose postings change stays indexed. */
  lemma UntouchedFile(c: Config, d: Dict, f: Form, posts: Posts, posts': Posts, g: nat, ts: seq<u32>)
    requires FileIndexed(c, d, f, posts, g, ts)
    requires forall t: u32 :: ((t, g) in posts' <==> (t, g) in posts) && ((t, g) in posts ==> posts'[(t, g)] == posts[(t, g)])
    ensures FileIndexed(c, d, f, posts', g, ts)
  {
  }

  // ---- removing a file's postings

  function WithoutPosts(posts: Posts, fid: nat, ts: seq<u32>): Posts {
    map k | k in posts && !(k.1 == fid && k.0 in ts) :: posts[k]
  }

  method RemovePosts(posts: Posts, fid: nat, ts: seq<u32>) returns (r: Posts)
    ensures r == WithoutPosts(posts, fid, ts)
  {
    r := posts;
    var seen: set<u32> := {};
    for i := 0 to |ts|
      invariant seen == set t | t in ts[..i]
      invariant r == WithoutPosts(posts, fid, ts[..i])
    {
      assert ts[..i + 1] == ts[..i] + [ts[i]];
      if ts[i] !in seen {
        seen := seen + {ts[i]};
        r := r - {(ts[i], fid)};
      }
    }
    assert ts[..|ts|] == ts;
  }

  lemma IndexRemove(c: Config, d: Dict, f: Form, live: Live, posts: Posts, fid: nat)
    requires IndexOk(c, d, f, live, posts) && fid in live
    ensures IndexOk(c, d, f, live - {fid}, WithoutPosts(posts, fid, live[fid]))
  {
    var posts' := WithoutPosts(posts, fid, live[fid]);
    forall k | k in posts'
      ensures k.1 in live - {fid}
    {
      assert k in posts && k == (k.0, k.1);
      assert FileIndexed(c, d, f, posts, k.1, live[k.1]);
    }
    forall g | g in live - {fid}
      ensures FileIndexed(c, d, f, posts', g, live[g])
    {
      UntouchedFile(c, d, f, posts, posts', g, live[g]);
    }
  }

  // ---- adding a file's postings

  /** `posts'` is `posts` with the postings of the terms in `done`. */
  ghost predicate Added(c: Config, d: Dict, f: Form, posts: Posts, posts': Posts, fid: nat, ids: seq<u32>, done: set<u32>) {
    && (forall t: u32, g: nat :: (t, g) in posts' <==> (t, g) in posts || (g == fid && t in done && Indexed(c, d, t)))
    && (forall t: u32, g: nat :: (t, g) in posts' ==>
          posts'[(t, g)] == if g == fid && t in done && Indexed(c, d, t) then f(ids, t) else posts[(t, g)])
  }

  function Distinct(ids: seq<u32>): set<u32> {
    set t | t in ids
  }

  /** The postings of the first `n` tokens' terms. */
  function WithPosts(c: Config, d: Dict, f: Form, posts: Posts, fid: nat, ids: seq<u32>, n: nat): Posts
    requires n <= |ids|
  {
    if n == 0 then posts
    else
      var front := WithPosts(c, d, f, posts, fid, ids, n - 1);
      if Indexed(c, d, ids[n - 1]) then front[(ids[n - 1], fid) := f(ids, ids[n - 1])] else front
  }

  lemma AddOne(c: Config, d: Dict, f: Form, posts: Posts, was: Posts, fid: nat, ids: seq<u32>, done: set<u32>, t: u32)
    requires Added(c, d, f, posts, was, fid, ids, done)
    ensures Added(c, d, f, posts, if Indexed(c, d, t) then was[(t, fid) := f(ids, t)] else was, fid, ids, done + {t})
  {
  }

  lemma {:induction false} WithPostsAdds(c: Config, d: Dict, f: Form, posts: Posts, fid: nat, ids: seq<u32>, n: nat)
    requires n <= |ids|
    ensures Added(c, d, f, posts, WithPosts(c, d, f, posts, fid, ids, n), fid, ids, Distinct(ids[..n]))
  {
    if n == 0 {
    } else {
      WithPostsAdds(c, d, f, posts, fid, ids, n - 1);
      AddOne(c, d, f, posts, WithPosts(c, d, f, posts, fid, ids, n - 1), fid, ids, Distinct(ids[..n - 1]), ids[n - 1]);
      assert Distinct(ids[..n]) == Distinct(ids[..n - 1]) + {ids[n - 1]};
    }
  }

  lemma AddedIsUnique(c: Config, d: Dict, f: Form, posts: Posts, x: Posts, y: Posts, fid: nat, ids: seq<u32>, done: set<u32>)
    requires Added(c, d, f, posts, x, fid, ids, done) && Added(c, d, f, posts, y, fid, ids, done)
    ensures x == y
  {
    forall k: (u32, nat)
      ensures k in x <==> k in y
      ensures k in x ==> x[k] == y[k]
    {
      assert k == (k.0, k.1);
    }
  }

  lemma NewFile(c: Config, d: Dict, f: Form, posts: Posts, posts': Posts, fid: nat, ids: seq<u32>)
    requires Added(c, d, f, posts, posts', fid, ids, Distinct(ids))
    requires forall t: u32 :: (t, fid) !in posts
    requires forall t :: t in ids ==> t in d.texts
    ensures FileIndexed(c, d, f, posts', fid, ids)
  {
  }

  lemma IndexAdd(c: Config, d: Dict, f: Form, live: Live, posts: Posts, posts': Posts, fid: nat, ids: seq<u32>)
    requires IndexOk(c, d, f, live, posts) && fid !in live && forall t :: t in ids ==> t in d.texts
    requires Added(c, d, f, posts, posts', fid, ids, Distinct(ids))
    ensures IndexOk(c, d, f, live[fid := ids], posts')
  {
    assert forall t: u32 :: (t, fid) !in posts;
    NewFile(c, d, f, posts, posts', fid, ids);
    forall g | g in live
      ensures FileIndexed(c, d, f, posts', g, live[g])
    {
      UntouchedFile(c, d, f, posts, posts', g, live[g]);
    }
    forall k | k in posts'
      ensures k.1 in live[fid := ids]
    {
      assert k == (k.0, k.1);
    }
  }

  /** The posting of `t` in `ts`, as `ingest_batch` writes it. */
  function PostingOf(ts: seq<u32>, t: u32): seq<Byte> {
    OrdinalsAre(ts, t);
    Posting(Ordinals(ts, t))
  }

  function Deltaed(): Form {
    (ts, t) => PostingOf(ts, t)
  }

  /** The map from terms to ordinals after the first tokens. */
  ghost predicate Grouped(ids: seq<u32>, per: map<u32, seq<nat>>) {
    && (forall t :: t in per <==> t in ids)
    && (forall t :: t in per ==> per[t] == Ordinals(ids, t))
  }

  lemma NoOrdinals(ids: seq<u32>, t: u32)
    requires t !in ids
    ensures Ordinals(ids, t) == []
  {
    OrdinalsNonEmpty(ids, t);
  }

  lemma GroupNext(ids: seq<u32>, per: map<u32, seq<nat>>, id: u32)
    requires Grouped(ids, per)
    ensures Grouped(ids + [id], per[id := (if id in per then per[id] else []) + [|ids|]])
  {
    var ids', per' := ids + [id], per[id := (if id in per then per[id] else []) + [|ids|]];
    forall t | t in per'
      ensures per'[t] == Ordinals(ids', t)
    {
      assert ids'[..|ids|] == ids;
      if t !in per {
        NoOrdinals(ids, t);
      }
    }
  }

  /** The ordinals of every term of a file, in one pass. */
  method Group(ids: seq<u32>) returns (per: map<u32, seq<nat>>)
    ensures Grouped(ids, per)
  {
    per := map[];
    for i := 0 to |ids|
      invariant Grouped(ids[..i], per)
    {
      assert ids[..i + 1] == ids[..i] + [ids[i]];
      GroupNext(ids[..i], per, ids[i]);
      per := per[ids[i] := (if ids[i] in per then per[ids[i]] else []) + [i]];
    }
    assert ids[..|ids|] == ids;
  }

  /** The bytes of one posting. */
  method PutPosting(ords: seq<nat>) returns (v: seq<Byte>)
    requires Ascending(ords)
    ensures v == Posting(ords)
  {
    v := Put([], |ords|);
    var p: nat, ds: seq<nat> := 0, [];
    for i := 0 to |ords|
      invariant i < |ords| ==> p <= ords[i]
      invariant Deltas(0, ords) == ds + Deltas(p, ords[i..])
      invariant v == Varint(|ords|) + Varints(ds)
    {
      assert ords[i..][1..] == ords[i + 1..];
      v := Put(v, ords[i] - p);
      VarintsSnoc(ds, ords[i] - p);
      ds := ds + [ords[i] - p];
      p := ords[i];
    }
    assert ords[|ords|..] == [] && ds + [] == ds;
  }

  method PostTerm(c: Config, d: Dict, posts: Posts, fid: nat, ids: seq<u32>, t: u32, ords: seq<nat>) returns (r: Posts)
    requires ords == Ordinals(ids, t) && t in d.texts
    ensures r == if Indexed(c, d, t) then posts[(t, fid) := Deltaed()(ids, t)] else posts
  {
    r := posts;
    if c.allPostings || d.texts[t] !in c.stop {
      OrdinalsAre(ids, t);
      var v := PutPosting(ords);
      r := r[(t, fid) := v];
    }
  }

  lemma AddedAll(c: Config, d: Dict, f: Form, posts: Posts, r: Posts, fid: nat, ids: seq<u32>)
    requires Added(c, d, f, posts, r, fid, ids, Distinct(ids))
    ensures r == WithPosts(c, d, f, posts, fid, ids, |ids|)
  {
    assert ids[..|ids|] == ids;
    WithPostsAdds(c, d, f, posts, fid, ids, |ids|);
    AddedIsUnique(c, d, f, posts, r, WithPosts(c, d, f, posts, fid, ids, |ids|), fid, ids, Distinct(ids));
  }

  lemma GroupedKeys(ids: seq<u32>, per: map<u32, seq<nat>>)
    requires Grouped(ids, per)
    ensures per.Keys == Distinct(ids)
  {
  }

  method PostAll(c: Config, d: Dict, posts: Posts, fid: nat, ids: seq<u32>, per: map<u32, seq<nat>>) returns (r: Posts)
    requires Grouped(ids, per) && forall t :: t in ids ==> t in d.texts
    ensures Added(c, d, Deltaed(), posts, r, fid, ids, per.Keys)
  {
    r := posts;
    var todo := per.Keys;
    ghost var done: set<u32>, f := {}, Deltaed();
    while todo != {}
      invariant todo !! done && todo + done == per.Keys
      invariant Added(c, d, f, posts, r, fid, ids, done)
      decreases |todo|
    {
      var t :| t in todo;
      AddOne(c, d, f, posts, r, fid, ids, done, t);
      r := PostTerm(c, d, r, fid, ids, t, per[t]);
      todo, done := todo - {t}, done + {t};
    }
    assert done == per.Keys;
  }

  method AddPosts(c: Config, d: Dict, posts: Posts, fid: nat, ids: seq<u32>) returns (r: Posts)
    requires forall t :: t in ids ==> t in d.texts
    ensures r == WithPosts(c, d, Deltaed(), posts, fid, ids, |ids|)
  {
    var per := Group(ids);
    GroupedKeys(ids, per);
    r := PostAll(c, d, posts, fid, ids, per);
    AddedAll(c, d, Deltaed(), posts, r, fid, ids);
  }
}
