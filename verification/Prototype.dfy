/** The prototype store as it runs (spikes/data-model/spike.rs): each method is its loops, and
    leaves the tables the specification says. */
module Prototype {
  import opened Options
  import opened Tokens
  import opened Codec
  import opened Postings
  import opened Index
  import opened Containment
  import S = Search
  import opened Store
  import opened Dictionary
  import opened Tree
  import opened Histories
  import opened Queries

  method Ensure(t: Tables, n: Name) returns (u: Tables, id: nat)
    ensures (u, id) == Ensured(t, n)
  {
    if n in t.names {
      return t, t.names[n];
    }
    id := t.next;
    u := t.(next := t.next + 1, names := t.names[n := id], ent := t.ent[id := Container(n.kind, n.parent, n.name)]);
  }

  /** The loop over a file's symbols in `remove_file_body`. */
  method RemoveSymbols(ent: Ents, syms: Syms, first: nat, n: nat) returns (ent': Ents, syms': Syms)
    ensures ent' == WithoutRange(ent, first, n) && syms' == WithoutNames(syms, ent, first, n)
  {
    ent', syms' := ent, syms;
    for i := 0 to n
      invariant ent' == WithoutRange(ent, first, i) && syms' == WithoutNames(syms, ent, first, i)
    {
      var id := first + i;
      if id in ent' {
        syms' := syms' - {(NameOf(ent'[id]), id)};
      }
      ent' := ent' - {id};
    }
  }

  method RemoveFileBody(t: Tables, fid: nat) returns (u: Tables)
    ensures u == Cleared(t, fid)
  {
    if fid !in t.ent || !t.ent[fid].File? {
      return t;
    }
    var e := t.ent[fid];
    var ent, syms := RemoveSymbols(t.ent, t.syms, e.firstSym, e.nsym);
    u := t.(ent := ent, syms := syms);
    if fid in t.stream {
      var d := Decode(t.stream[fid], LensOf(t.dict));
      var toks := if d.Some? then d.value else [];
      var post := RemovePosts(t.post, fid, Terms(toks));
      u := u.(stream := t.stream - {fid}, post := post);
    }
  }

  lemma AppendedUpTo(ent: Ents, first: nat, es: seq<Ent>, i: nat)
    requires i < |es|
    ensures Appended(ent, first, es[..i + 1]) == Appended(ent, first, es[..i])[first + i := es[i]]
  {
    var x, y := Appended(ent, first, es[..i + 1]), Appended(ent, first, es[..i])[first + i := es[i]];
    assert forall id :: first <= id < first + i ==> Nth(es[..i + 1], first, id) == Nth(es[..i], first, id);
    assert x.Keys == y.Keys;
  }

  lemma NamesUpTo(syms: Syms, first: nat, sy: seq<SymDecl>, i: nat)
    requires i < |sy|
    ensures WithNames(syms, first, sy[..i + 1]) == WithNames(syms, first, sy[..i]) + {(sy[i].name, first + i)}
  {
    var x, y := WithNames(syms, first, sy[..i]) + {(sy[i].name, first + i)}, WithNames(syms, first, sy[..i + 1]);
    forall p | p in x
      ensures p in y
    {
      if p !in syms {
        if p == (sy[i].name, first + i) {
          assert p == (sy[..i + 1][i].name, first + i);
        } else {
          var k :| 0 <= k < i && p == (sy[..i][k].name, first + k);
          assert p == (sy[..i + 1][k].name, first + k);
        }
      }
    }
  }

  /** Inserts the records and names of a file's symbols. */
  method Insert(ent: Ents, syms: Syms, fid: nat, first: nat, sy: seq<SymDecl>, parents: seq<Option<nat>>) returns (ent': Ents, syms': Syms)
    requires |parents| == |sy|
    ensures ent' == Appended(ent, first, Records(fid, first, sy, parents)) && syms' == WithNames(syms, first, sy)
  {
    ent', syms' := ent, syms;
    ghost var es := Records(fid, first, sy, parents);
    for i := 0 to |sy|
      invariant ent' == Appended(ent, first, es[..i])
      invariant syms' == WithNames(syms, first, sy[..i])
    {
      AppendedUpTo(ent, first, es, i);
      NamesUpTo(syms, first, sy, i);
      ent' := ent'[first + i := Symbol(if parents[i].Some? then first + parents[i].value else fid, sy[i])];
      syms' := syms' + {(sy[i].name, first + i)};
    }
    assert es[..|es|] == es && sy[..|sy|] == sy;
  }

  /** The symbol loop of `ingest_batch`; `SymbolParents` runs its stack of open symbols. */
  method AddSymbols(ent: Ents, syms: Syms, fid: nat, first: nat, sy: seq<SymDecl>) returns (ent': Ents, syms': Syms)
    requires InOrder(Ranges(sy))
    ensures ent' == Appended(ent, first, RecordsOf(fid, first, sy)) && syms' == WithNames(syms, first, sy)
  {
    var parents := SymbolParents(Ranges(sy));
    assert parents == ParentsOf(sy);
    ent', syms' := Insert(ent, syms, fid, first, sy, parents);
  }

  /** The tables `Filled` describes. */
  method FillFile(c: Config, t: Tables, n: Name, fid: nat, x: Content) returns (u: Tables)
    requires DictOk(t.dict) && Fits(InternAll(t.dict, Texts(x.tokens)).0) && InOrder(Ranges(x.symbols))
    ensures u == Filled(c, t, n.parent, n.name, fid, x)
  {
    var first := t.next;
    var ent, syms := AddSymbols(t.ent, t.syms, fid, first, x.symbols);
    InternedAreKnown(t.dict, x.tokens);
    var d, ids := InternLoop(t.dict, Texts(x.tokens));
    IdsAreTexts(d, x.tokens);
    var b := Encode(ToksWith(x.tokens, ids), LensOf(d));
    var post := AddPosts(c, d, t.post, fid, ids);
    ent := ent[fid := File(n.parent, n.name, x.lang, x.err, x.fp, first, |x.symbols|, |x.tokens|)];
    u := Tables(first + |x.symbols|, t.names, ent, d, t.stream[fid := b], post, syms);
  }

  method IngestFile(c: Config, t: Tables, rid: nat, path: string, x: Content) returns (u: Tables)
    requires DictOk(t.dict) && Fits(IngestedFile(c, t, rid, path, x).dict)
    ensures u == IngestedFile(c, t, rid, path, x)
  {
    var n := Name(rid, FILE, path);
    var v, fid := Ensure(t, n);
    v := RemoveFileBody(v, fid);
    PreparedIsSorted(x);
    u := FillFile(c, v, n, fid, Prepared(x));
  }

  lemma FilesStep(c: Config, t: Tables, rid: nat, files: seq<Source>, i: nat)
    requires i < |files|
    ensures IngestedFiles(c, t, rid, files[..i + 1])
         == IngestedFile(c, IngestedFiles(c, t, rid, files[..i]), rid, files[i].path, files[i].content)
  {
    assert files[..i + 1][..i] == files[..i];
  }

  lemma SoundSoFar(c: Config, t: Tables, rid: nat, org: string, repo: string, files: seq<Source>, slots: Slots, shelf: Shelf)
    requires Holds(c, t, slots, shelf) && RepoAt(t.ent, rid, org, repo) && Fits(IngestedFiles(c, t, rid, files).dict)
    ensures DictOk(IngestedFiles(c, t, rid, files).dict)
  {
    var _ := HoldsIngestedFiles(c, t, slots, shelf, rid, org, repo, files);
  }

  /** The next file of a batch finds a sound dictionary and leaves one that fits. */
  lemma NextFile(c: Config, t: Tables, rid: nat, org: string, repo: string, files: seq<Source>, i: nat, slots: Slots, shelf: Shelf)
    requires Holds(c, t, slots, shelf) && RepoAt(t.ent, rid, org, repo) && Fits(IngestedFiles(c, t, rid, files).dict)
    requires i < |files|
    ensures DictOk(IngestedFiles(c, t, rid, files[..i]).dict) && Fits(IngestedFiles(c, t, rid, files[..i + 1]).dict)
  {
    FilesGrow(c, t, rid, files, i);
    FilesGrow(c, t, rid, files, i + 1);
    SoundSoFar(c, t, rid, org, repo, files[..i], slots, shelf);
  }

  lemma CountNext(files: seq<Source>, i: nat)
    requires i < |files|
    ensures TokenCount(files[..i + 1]) == TokenCount(files[..i]) + |files[i].content.tokens|
  {
    assert files[..i + 1][..i] == files[..i];
  }

  /** The loop of `ingest_batch` over the files of a repository. */
  method IngestFiles(c: Config, t: Tables, rid: nat, org: string, repo: string, files: seq<Source>, ghost slots: Slots, ghost shelf: Shelf)
      returns (u: Tables, nfile: nat, ntok: nat)
    requires Holds(c, t, slots, shelf) && RepoAt(t.ent, rid, org, repo) && Fits(IngestedFiles(c, t, rid, files).dict)
    ensures u == IngestedFiles(c, t, rid, files) && nfile == |files| && ntok == TokenCount(files)
  {
    hide IngestedFile, Holds, DictOk;
    u, nfile, ntok := t, 0, 0;
    for i := 0 to |files|
      invariant u == IngestedFiles(c, t, rid, files[..i]) && nfile == i && ntok == TokenCount(files[..i])
    {
      NextFile(c, t, rid, org, repo, files, i, slots, shelf);
      FilesStep(c, t, rid, files, i);
      CountNext(files, i);
      u := IngestFile(c, u, rid, files[i].path, files[i].content);
      nfile, ntok := nfile + 1, ntok + |files[i].content.tokens|;
    }
    assert files[..|files|] == files;
  }

  lemma IsCounted(c: Config, t: Tables, slots: Slots, shelf: Shelf)
    requires Holds(c, t, slots, shelf)
    ensures Counted(t.dict)
  {
  }

  method IngestAll(c: Config, t: Tables, org: string, repo: string, files: seq<Source>, ghost slots: Slots, ghost shelf: Shelf)
      returns (u: Tables, nfile: nat, ntok: nat, ghost slots': Slots, ghost shelf': Shelf)
    requires Holds(c, t, slots, shelf) && HasRoom(t.dict, BatchTexts(files))
    ensures nfile == |files| && ntok == TokenCount(files)
    ensures u == Ingested(c, t, org, repo, files) && shelf' == Shelved(shelf, org, repo, files) && Holds(c, u, slots', shelf')
  {
    hide IngestedFiles, Holds, Shelved, DictOk;
    BatchCounted(c, t, org, repo, files);
    IsCounted(c, t, slots, shelf);
    var v, oid := Ensure(t, Name(0, ORG, org));
    var w, rid := Ensure(v, Name(oid, REPO, repo));
    EnsuredRepo(c, t, slots, shelf, org, repo);
    u, nfile, ntok := IngestFiles(c, w, rid, org, repo, files, slots, shelf);
    slots' := HoldsIngestedFiles(c, w, slots, shelf, rid, org, repo, files);
    shelf' := Shelved(shelf, org, repo, files);
  }

  // ---- search

  /** The token loop of `search`. */
  method ScanFile(q: S.Query, tid: u32, f: S.FileInfo, toks: seq<Tok>, rows: S.Rows) returns (r: S.Rows)
    ensures r == S.Scanned(q, tid, f, toks, |toks|, rows)
  {
    r := rows;
    for i := 0 to |toks|
      invariant r == S.Scanned(q, tid, f, toks, i, rows)
    {
      var t := toks[i];
      if t.term == tid && (q.kind.None? || q.kind.value == t.kind) {
        r := S.Bump(r, S.TokenKey(q, f, t.span.start), 1);
      }
    }
  }

  /** What `search` does with one file. */
  method SearchFile(q: S.Query, tid: u32, t: Tables, fid: nat, count: Option<nat>, rows: S.Rows) returns (r: S.Rows)
    requires fid in t.stream && Describable(t.ent, fid)
    ensures r == S.FileRows(q, tid, InfoOf(t.ent, fid), Decoded(t.dict, t.stream[fid]), count, rows)
  {
    var f := InfoOf(t.ent, fid);
    if !S.Wanted(q, f) {
      return rows;
    }
    if !S.NeedsStream(q, count) {
      return S.Bump(rows, S.FileKey(q, f), count.value);
    }
    var d := Decode(t.stream[fid], LensOf(t.dict));
    r := ScanFile(q, tid, f, if d.Some? then d.value else [], rows);
  }

  method SearchPostings(q: S.Query, tid: u32, t: Tables) returns (rows: S.Rows)
    requires Searchable(t)
    ensures rows == S.Collect(q, tid, LibraryOf(t), PostCounts(t.post, tid).Keys, PostCounts(t.post, tid), t.next)
  {
    rows := map[];
    ghost var l, counts := LibraryOf(t), PostCounts(t.post, tid);
    for fid := 0 to t.next
      invariant rows == S.Collect(q, tid, l, counts.Keys, counts, fid)
    {
      if (tid, fid) in t.post {
        assert (tid, fid).1 in set k | k in t.post && k.0 == tid :: k.1;
        rows := SearchFile(q, tid, t, fid, Some(CountOf(t.post[(tid, fid)])), rows);
      }
    }
  }

  method SearchStreams(q: S.Query, tid: u32, t: Tables) returns (rows: S.Rows)
    requires Searchable(t)
    ensures rows == S.Collect(q, tid, LibraryOf(t), t.stream.Keys, map[], t.next)
  {
    rows := map[];
    ghost var l := LibraryOf(t);
    for fid := 0 to t.next
      invariant rows == S.Collect(q, tid, l, t.stream.Keys, map[], fid)
    {
      if fid in t.stream {
        rows := SearchFile(q, tid, t, fid, None, rows);
      }
    }
  }

  // ---- the store

  class P {
    const c: Config
    var db: Tables
    ghost var slots: Slots
    ghost var shelf: Shelf

    /** The committed tables hold exactly the shelf. */
    ghost predicate Valid()
      reads this
    {
      Holds(c, db, slots, shelf)
    }

    constructor (c: Config)
      ensures Valid() && this.c == c && shelf == map[] && db == EMPTY
    {
      this.c, db, slots, shelf := c, EMPTY, map[], map[];
      EmptyHolds(c);
    }

    /** Any batch whose new texts still get ids; the answer is the number of files and tokens. */
    method IngestBatch(org: string, repo: string, files: seq<Source>) returns (nfile: nat, ntok: nat)
      requires Valid() && HasRoom(db.dict, BatchTexts(files))
      modifies this
      ensures nfile == |files| && ntok == TokenCount(files)
      ensures Valid() && shelf == Shelved(old(shelf), org, repo, files)
      ensures db == Ingested(c, old(db), org, repo, files)
    {
      hide Ingested, Shelved, Holds;
      db, nfile, ntok, slots, shelf := IngestAll(c, db, org, repo, files, slots, shelf);
    }

    method DeleteFile(org: string, repo: string, path: string) returns (ok: bool)
      requires Valid()
      modifies this
      ensures Valid() && shelf == old(shelf) - {Where(org, repo, path)} && ok == (Where(org, repo, path) in old(shelf))
      ensures db == Deleted(old(db), Where(org, repo, path)).0
    {
      ghost var w := Where(org, repo, path);
      slots := HoldsDeleted(c, db, slots, shelf, w);
      shelf := shelf - {w};
      ok := false;
      if Name(0, ORG, org) in db.names {
        var repoName := Name(db.names[Name(0, ORG, org)], REPO, repo);
        if repoName in db.names {
          var n := Name(db.names[repoName], FILE, path);
          if n in db.names {
            var fid := db.names[n];
            var u := RemoveFileBody(db, fid);
            db := u.(ent := u.ent - {fid}, names := u.names - {n});
            ok := true;
          }
        }
      }
    }

    /** The rows of every matching token of the shelf, whichever way they are found. */
    method Search(q: S.Query) returns (rows: S.Rows)
      requires Valid()
      ensures Searchable(db) && rows == ByScan(db, q)
    {
      AlwaysSearchable(c, db, slots);
      SearchAgrees(c, db, slots, q);
      if q.text !in db.dict.ids {
        return map[];
      }
      var tid := db.dict.ids[q.text];
      if c.allPostings || q.text !in c.stop {
        rows := SearchPostings(q, tid, db);
      } else {
        rows := SearchStreams(q, tid, db);
      }
    }
  }

  /** A batch only adds to the dictionary, file by file. */
  lemma {:induction false} FilesGrow(c: Config, t: Tables, rid: nat, files: seq<Source>, i: nat)
    requires i <= |files|
    ensures IngestedFiles(c, t, rid, files[..i]).dict.next <= IngestedFiles(c, t, rid, files).dict.next
    decreases |files|
  {
    hide IngestedFile;
    if i == |files| {
      assert files[..i] == files;
    } else {
      FilesGrow(c, t, rid, files[..|files| - 1], i);
      assert files[..|files| - 1][..i] == files[..i];
    }
  }
}
