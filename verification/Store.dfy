/**
 The prototype store (spikes/data-model/spike.rs): its tables, and what ingesting and
 deleting do to them. Records are values; a transaction is the tables it commits.
 */
module Store {
  import opened Options
  import opened Tokens
  import opened Codec
  import opened Postings
  import opened Index
  import opened Containment
  import opened Sorting

  datatype SymDecl = SymDecl(name: string, kind: string, langKind: Option<string>, span: Span)
  datatype TokDecl = TokDecl(text: string, kind: TokenClass, span: Span)

  /** A vector's length is a 64-bit number. */
  type TokList = s: seq<TokDecl> | |s| < U64

  /** What the extractor found in a file. */
  datatype Content = Content(lang: string, err: bool, fp: seq<Byte>, symbols: seq<SymDecl>, tokens: TokList)

  predicate SymLe(a: SymDecl, b: SymDecl) {
    a.span.start < b.span.start || (a.span.start == b.span.start && a.span.end >= b.span.end)
  }

  predicate TokLe(a: TokDecl, b: TokDecl) {
    a.span.start <= b.span.start
  }

  /** The content in the order it is stored. */
  function Prepared(x: Content): Content {
    SortKeepsLength(TokLe, x.tokens);
    x.(symbols := Sort(SymLe, x.symbols), tokens := Sort(TokLe, x.tokens))
  }

  function Ranges(sy: seq<SymDecl>): (r: seq<Range>)
    ensures |r| == |sy|
  {
    seq(|sy|, i requires 0 <= i < |sy| => Range(sy[i].span.start, sy[i].span.end))
  }

  lemma PreparedIsSorted(x: Content)
    ensures InOrder(Ranges(Prepared(x).symbols)) && multiset(Prepared(x).symbols) == multiset(x.symbols)
    ensures Sorted(TokLe, Prepared(x).tokens) && multiset(Prepared(x).tokens) == multiset(x.tokens)
    ensures |Prepared(x).tokens| == |x.tokens|
  {
    SortSorts(SymLe, x.symbols);
    SortSorts(TokLe, x.tokens);
    SortKeepsLength(TokLe, x.tokens);
    var sy := Prepared(x).symbols;
    forall i, j | 0 <= i < j < |sy|
      ensures var (a, b) := (Ranges(sy)[i], Ranges(sy)[j]); a.start < b.start || (a.start == b.start && a.end >= b.end)
    {
      assert SymLe(sy[i], sy[j]);
    }
  }

  // ---- tables

  datatype Ent =
    | Container(kind: nat, parent: nat, name: string)
    | File(parent: nat, name: string, lang: string, err: bool, fp: seq<Byte>, firstSym: nat, nsym: nat, ntok: nat)
    | Symbol(parent: nat, decl: SymDecl)

  datatype Name = Name(parent: nat, kind: nat, name: string)

  type Names = map<Name, nat>
  type Ents = map<nat, Ent>
  type Streams = map<nat, seq<Byte>>
  type Syms = set<(string, nat)>

  datatype Tables = Tables(next: nat, names: Names, ent: Ents, dict: Dict, stream: Streams, post: Posts, syms: Syms)

  const EMPTY := Tables(1, map[], map[], Dict(map[], map[], 0), map[], map[], {})

  const ORG: nat := 0
  const REPO: nat := 1
  const FILE: nat := 2

  // ---- tokens and the dictionary

  function CharLen(c: char): nat {
    if c as int < 0x80 then 1 else if c as int < 0x800 then 2 else if c as int < 0x1_0000 then 3 else 4
  }

  /** The number of UTF-8 bytes. */
  function ByteLen(s: string): nat {
    if s == [] then 0 else ByteLen(s[..|s| - 1]) + CharLen(s[|s| - 1])
  }

  function LensOf(d: Dict): Lens {
    (t: u32) => if t in d.texts then (ByteLen(d.texts[t]), |d.texts[t]|) else (0, 0)
  }

  function Texts(tk: seq<TokDecl>): (r: seq<string>)
    ensures |r| == |tk|
  {
    seq(|tk|, i requires 0 <= i < |tk| => tk[i].text)
  }

  predicate Known(d: Dict, tk: seq<TokDecl>) {
    forall i :: 0 <= i < |tk| ==> tk[i].text in d.ids
  }

  function IdsIn(d: Dict, tk: seq<TokDecl>): (r: seq<u32>)
    requires Known(d, tk)
    ensures |r| == |tk|
  {
    seq(|tk|, i requires 0 <= i < |tk| => d.ids[tk[i].text])
  }

  function ToksWith(tk: seq<TokDecl>, ids: seq<u32>): (r: seq<Tok>)
    requires |ids| == |tk|
    ensures |r| == |tk|
  {
    seq(|tk|, i requires 0 <= i < |tk| => Tok(ids[i], tk[i].kind, tk[i].span))
  }

  /** The stream of a file whose texts are all interned. */
  function Body(d: Dict, tk: seq<TokDecl>): seq<Byte>
    requires Known(d, tk)
  {
    EncodeStream(ToksWith(tk, IdsIn(d, tk)), LensOf(d))
  }

  /** The tokens of a stream; a stream that does not decode, which stops the program,
      gives none. `Queries.StreamsAlways` shows that none is ever stored. */
  function Decoded(d: Dict, b: seq<Byte>): seq<Tok> {
    var r := DecodeStream(b, LensOf(d));
    if r.Some? then r.value else []
  }

  // ---- the steps of a transaction

  /** `ensure`. */
  function Ensured(t: Tables, n: Name): (r: (Tables, nat))
    ensures r.0.dict == t.dict
  {
    if n in t.names then (t, t.names[n])
    else
      (t.(next := t.next + 1, names := t.names[n := t.next],
          ent := t.ent[t.next := Container(n.kind, n.parent, n.name)]), t.next)
  }

  function NameOf(e: Ent): string {
    if e.Symbol? then e.decl.name else e.name
  }

  function WithoutRange(ent: Ents, first: nat, n: nat): Ents {
    map id | id in ent && !(first <= id < first + n) :: ent[id]
  }

  function WithoutNames(syms: Syms, ent: Ents, first: nat, n: nat): Syms {
    set p | p in syms && !(first <= p.1 < first + n && p.1 in ent && NameOf(ent[p.1]) == p.0)
  }

  /** `remove_file_body`. */
  function Cleared(t: Tables, fid: nat): (r: Tables)
    ensures r.dict == t.dict
  {
    if fid !in t.ent || !t.ent[fid].File? then t
    else
      var e := t.ent[fid];
      var u := t.(ent := WithoutRange(t.ent, e.firstSym, e.nsym), syms := WithoutNames(t.syms, t.ent, e.firstSym, e.nsym));
      if fid !in t.stream then u
      else
        u.(stream := t.stream - {fid},
           post := WithoutPosts(t.post, fid, Terms(Decoded(t.dict, t.stream[fid]))))
  }

  /** The last earlier symbol around the start of each. */
  function ParentsOf(sy: seq<SymDecl>): (r: seq<Option<nat>>)
    ensures |r| == |sy|
  {
    seq(|sy|, i requires 0 <= i < |sy| => LastCover(Ranges(sy), i, sy[i].span.start))
  }

  /** The records of a file's symbols, under their parents or the file. */
  function Records(fid: nat, first: nat, sy: seq<SymDecl>, parents: seq<Option<nat>>): (r: seq<Ent>)
    requires |parents| == |sy|
    ensures |r| == |sy| && forall i :: 0 <= i < |sy| ==> r[i].Symbol? && r[i].decl == sy[i]
  {
    seq(|sy|, i requires 0 <= i < |sy| => Symbol(if parents[i].Some? then first + parents[i].value else fid, sy[i]))
  }

  function RecordsOf(fid: nat, first: nat, sy: seq<SymDecl>): (r: seq<Ent>)
    ensures |r| == |sy| && forall i :: 0 <= i < |sy| ==> r[i].Symbol? && r[i].decl == sy[i]
  {
    Records(fid, first, sy, ParentsOf(sy))
  }

  function Nth(es: seq<Ent>, first: nat, id: nat): Ent
    requires first <= id < first + |es|
  {
    es[id - first]
  }

  /** `es` at the ids from `first` on. */
  function Appended(ent: Ents, first: nat, es: seq<Ent>): Ents {
    ent + map id | first <= id < first + |es| :: Nth(es, first, id)
  }

  function WithNames(syms: Syms, first: nat, sy: seq<SymDecl>): Syms {
    syms + set i | 0 <= i < |sy| :: (sy[i].name, first + i)
  }

  /** The rest of `ingest_batch` for one file, from its sorted content. */
  function Filled(c: Config, t: Tables, rid: nat, path: string, fid: nat, x: Content): (r: Tables)
    ensures t.dict.next <= r.dict.next
  {
    var n, first := |x.symbols|, t.next;
    var (d, ids) := InternAll(t.dict, Texts(x.tokens));
    Tables(first + n, t.names,
           Appended(t.ent, first, RecordsOf(fid, first, x.symbols))[fid := File(rid, path, x.lang, x.err, x.fp, first, n, |x.tokens|)],
           d,
           t.stream[fid := EncodeStream(ToksWith(x.tokens, ids), LensOf(d))],
           WithPosts(c, d, Deltaed(), t.post, fid, ids, |ids|),
           WithNames(t.syms, first, x.symbols))
  }

  function IngestedFile(c: Config, t: Tables, rid: nat, path: string, x: Content): (r: Tables)
    ensures t.dict.next <= r.dict.next
  {
    var (u, fid) := Ensured(t, Name(rid, FILE, path));
    Filled(c, Cleared(u, fid), rid, path, fid, Prepared(x))
  }

  datatype Source = Source(path: string, content: Content)

  function TokenCount(files: seq<Source>): nat {
    if files == [] then 0 else TokenCount(files[..|files| - 1]) + |files[|files| - 1].content.tokens|
  }

  function IngestedFiles(c: Config, t: Tables, rid: nat, files: seq<Source>): (r: Tables)
    ensures t.dict.next <= r.dict.next
  {
    if files == [] then t
    else
      var u := IngestedFiles(c, t, rid, files[..|files| - 1]);
      var f := files[|files| - 1];
      IngestedFile(c, u, rid, f.path, f.content)
  }

  /** `ingest_batch`. */
  function Ingested(c: Config, t: Tables, org: string, repo: string, files: seq<Source>): (r: Tables)
    ensures t.dict.next <= r.dict.next
  {
    var (u, oid) := Ensured(t, Name(0, ORG, org));
    var (v, rid) := Ensured(u, Name(oid, REPO, repo));
    IngestedFiles(c, v, rid, files)
  }

  datatype Where = Where(org: string, repo: string, path: string)

  function RepoOf(names: Names, w: Where): Option<nat> {
    if Name(0, ORG, w.org) !in names then None
    else
      var n := Name(names[Name(0, ORG, w.org)], REPO, w.repo);
      if n in names then Some(names[n]) else None
  }

  function Find(names: Names, w: Where): Option<nat> {
    var rid := RepoOf(names, w);
    if rid.None? then None
    else
      var n := Name(rid.value, FILE, w.path);
      if n in names then Some(names[n]) else None
  }

  function Dropped(t: Tables, fid: nat, n: Name): (r: Tables)
    ensures r.dict == t.dict
  {
    t.(ent := t.ent - {fid}, names := t.names - {n})
  }

  /** `delete_file`. */
  function Deleted(t: Tables, w: Where): (r: (Tables, bool))
    ensures r.0.dict == t.dict
  {
    var fid := Find(t.names, w);
    if fid.None? then (t, false)
    else (Dropped(Cleared(t, fid.value), fid.value, Name(RepoOf(t.names, w).value, FILE, w.path)), true)
  }

  // ---- histories

  datatype Op = Ingest(org: string, repo: string, files: seq<Source>) | Delete(at: Where)

  function FileTexts(x: Content): set<string> {
    TextSet(Texts(x.tokens))
  }

  function BatchTexts(files: seq<Source>): set<string> {
    if files == [] then {} else BatchTexts(files[..|files| - 1]) + FileTexts(files[|files| - 1].content)
  }

  /** The distinct texts a history ever ingests. */
  function Vocabulary(ops: seq<Op>): set<string> {
    if ops == [] then {}
    else
      var op := ops[|ops| - 1];
      Vocabulary(ops[..|ops| - 1]) + if op.Ingest? then BatchTexts(op.files) else {}
  }

  function Applied(c: Config, t: Tables, op: Op): (r: Tables)
    ensures t.dict.next <= r.dict.next
  {
    match op
    case Ingest(org, repo, files) => Ingested(c, t, org, repo, files)
    case Delete(at) => Deleted(t, at).0
  }

  /** The tables after a history. */
  function Run(c: Config, ops: seq<Op>): Tables {
    if ops == [] then EMPTY else Applied(c, Run(c, ops[..|ops| - 1]), ops[|ops| - 1])
  }

  // ---- what a history should leave behind

  type Shelf = map<Where, Content>

  function Shelved(s: Shelf, org: string, repo: string, files: seq<Source>): Shelf {
    if files == [] then s
    else
      var f := files[|files| - 1];
      Shelved(s, org, repo, files[..|files| - 1])[Where(org, repo, f.path) := Prepared(f.content)]
  }

  /** The last ingested version of every file not deleted since. */
  function Latest(ops: seq<Op>): Shelf {
    if ops == [] then map[]
    else
      var s := Latest(ops[..|ops| - 1]);
      match ops[|ops| - 1]
      case Ingest(org, repo, files) => Shelved(s, org, repo, files)
      case Delete(at) => s - {at}
  }
}
