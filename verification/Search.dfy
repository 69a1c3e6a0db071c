/**
 `search` of the prototype store (spikes/data-model/spike.rs): the rows of a query,
 found through the postings or by scanning every stream.
 */
module Search {
  import opened Basics
  import opened Options
  import opened Tokens
  import opened Codec
  import opened Postings
  import opened Index
  import opened Containment

  datatype Grain = TokenGrain | SymbolGrain | FileGrain | RepoGrain | OrgGrain

  datatype Query = Query(
    text: string, lang: Option<string>, org: Option<string>, repo: Option<string>,
    kind: Option<TokenClass>, grain: Grain, symbolKind: Option<string>)

  datatype Sym = Sym(id: nat, kind: string, range: Range)

  /** What `search` looks up about a file. */
  datatype FileInfo = FileInfo(org: string, repo: string, name: string, lang: string, syms: seq<Sym>)

  /** Org, repo, path, start and symbol id; the coarser grains leave the rest empty. */
  datatype Key = Key(org: string, repo: string, path: string, start: nat, sym: nat)

  type Rows = map<Key, nat>

  predicate SameLang(a: string, b: string) {
    |a| == |b| && forall i :: 0 <= i < |a| ==> Lower(a[i]) == Lower(b[i])
  }

  predicate Wanted(q: Query, f: FileInfo) {
    && (q.lang.Some? ==> SameLang(f.lang, q.lang.value))
    && (q.org.Some? ==> q.org.value == f.org)
    && (q.repo.Some? ==> q.repo.value == f.repo)
  }

  /** The last stored symbol around `pos` of the wanted kind. */
  function SymbolAt(q: Query, syms: seq<Sym>, pos: nat): Option<Sym> {
    if syms == [] then None
    else
      var s := syms[|syms| - 1];
      if Covers(s.range, pos) && (q.symbolKind.None? || q.symbolKind.value == s.kind) then Some(s)
      else SymbolAt(q, syms[..|syms| - 1], pos)
  }

  function FileKey(q: Query, f: FileInfo): Key {
    match q.grain
    case FileGrain => Key(f.org, f.repo, f.name, 0, 0)
    case RepoGrain => Key(f.org, f.repo, "", 0, 0)
    case _ => Key(f.org, "", "", 0, 0)
  }

  function TokenKey(q: Query, f: FileInfo, start: nat): Key {
    match q.grain
    case TokenGrain => Key(f.org, f.repo, f.name, start, 0)
    case SymbolGrain =>
      var s := SymbolAt(q, f.syms, start);
      if s.Some? then Key(f.org, f.repo, f.name, s.value.range.start, s.value.id) else Key(f.org, f.repo, f.name, 0, 0)
    case _ => FileKey(q, f)
  }

  predicate Matches(q: Query, tid: u32, t: Tok) {
    t.term == tid && (q.kind.Some? ==> q.kind.value == t.kind)
  }

  function Bump(rows: Rows, k: Key, n: nat): Rows {
    rows[k := (if k in rows then rows[k] else 0) + n]
  }

  /** The rows after scanning the first `n` tokens of a stream. */
  function Scanned(q: Query, tid: u32, f: FileInfo, toks: seq<Tok>, n: nat, rows: Rows): Rows
    requires n <= |toks|
  {
    if n == 0 then rows
    else
      var front := Scanned(q, tid, f, toks, n - 1, rows);
      var t := toks[n - 1];
      if Matches(q, tid, t) then Bump(front, TokenKey(q, f, t.span.start), 1) else front
  }

  /** Whether the posting's count is not enough. */
  predicate NeedsStream(q: Query, count: Option<nat>) {
    q.kind.Some? || q.grain.TokenGrain? || q.grain.SymbolGrain? || count.None?
  }

  function FileRows(q: Query, tid: u32, f: FileInfo, toks: seq<Tok>, count: Option<nat>, rows: Rows): Rows {
    if !Wanted(q, f) then rows
    else if !NeedsStream(q, count) then Bump(rows, FileKey(q, f), count.value)
    else Scanned(q, tid, f, toks, |toks|, rows)
  }

  /** The live files: what is looked up about each, and its decoded stream. */
  datatype Library = Library(info: map<nat, FileInfo>, toks: map<nat, seq<Tok>>)

  predicate ValidLibrary(l: Library) {
    l.info.Keys == l.toks.Keys
  }

  /** Rows of the files below `n` among `files`, in id order; `count` is what the postings say. */
  function Collect(q: Query, tid: u32, l: Library, files: set<nat>, count: map<nat, nat>, n: nat): Rows
    requires ValidLibrary(l) && files <= l.info.Keys
  {
    if n == 0 then map[]
    else
      var fid := n - 1;
      var rows := Collect(q, tid, l, files, count, fid);
      if fid in files then FileRows(q, tid, l.info[fid], l.toks[fid], if fid in count then Some(count[fid]) else None, rows)
      else rows
  }

  /** The files with a posting for `tid`, and the counts in them. */
  function Counts(l: Library, tid: u32): (r: map<nat, nat>) {
    map fid | fid in l.toks && tid in Terms(l.toks[fid]) :: |Ordinals(Terms(l.toks[fid]), tid)|
  }

  // ---- the two ways agree

  lemma {:induction false} NothingToScan(q: Query, tid: u32, f: FileInfo, toks: seq<Tok>, n: nat, rows: Rows)
    requires n <= |toks| && forall i :: 0 <= i < n ==> toks[i].term != tid
    ensures Scanned(q, tid, f, toks, n, rows) == rows
  {
    if n == 0 {
    } else {
      NothingToScan(q, tid, f, toks, n - 1, rows);
    }
  }

  /** At the coarse grains a scan adds its matches to one row. */
  lemma {:induction false} ScanIsBump(q: Query, tid: u32, f: FileInfo, toks: seq<Tok>, n: nat, rows: Rows)
    requires n <= |toks| && !NeedsStream(q, Some(0))
    ensures var c := |Ordinals(Terms(toks)[..n], tid)|;
            Scanned(q, tid, f, toks, n, rows) == if c == 0 then rows else Bump(rows, FileKey(q, f), c)
  {
    var ts := Terms(toks);
    if n == 0 {
    } else {
      ScanIsBump(q, tid, f, toks, n - 1, rows);
      assert ts[..n][..n - 1] == ts[..n - 1];
    }
  }

  lemma FileAgrees(q: Query, tid: u32, f: FileInfo, toks: seq<Tok>, rows: Rows)
    ensures var c := |Ordinals(Terms(toks), tid)|;
            FileRows(q, tid, f, toks, None, rows)
            == if tid in Terms(toks) then FileRows(q, tid, f, toks, Some(c), rows) else rows
  {
    var ts := Terms(toks);
    OrdinalsNonEmpty(ts, tid);
    assert ts[..|toks|] == ts;
    if tid !in ts {
      forall i | 0 <= i < |toks|
        ensures toks[i].term != tid
      {
        assert ts[i] == toks[i].term;
      }
      NothingToScan(q, tid, f, toks, |toks|, rows);
    } else if !NeedsStream(q, Some(0)) {
      ScanIsBump(q, tid, f, toks, |toks|, rows);
    }
  }

  /** Going through the postings finds the same rows and counts as scanning every
      stream, for every grain and filter. */
  lemma {:induction false} PostingsAgreeWithScan(q: Query, tid: u32, l: Library, n: nat)
    requires ValidLibrary(l)
    ensures Counts(l, tid).Keys <= l.info.Keys
    ensures Collect(q, tid, l, Counts(l, tid).Keys, Counts(l, tid), n) == Collect(q, tid, l, l.info.Keys, map[], n)
  {
    if n == 0 {
    } else {
      PostingsAgreeWithScan(q, tid, l, n - 1);
      if n - 1 in l.info {
        FileAgrees(q, tid, l.info[n - 1], l.toks[n - 1], Collect(q, tid, l, l.info.Keys, map[], n - 1));
      }
    }
  }

  // ---- what the rows count

  function At(rows: Rows, k: Key): nat {
    if k in rows then rows[k] else 0
  }

  /** How many of the first `n` tokens match and belong to the row `k`. */
  function Hits(q: Query, tid: u32, f: FileInfo, toks: seq<Tok>, n: nat, k: Key): nat
    requires n <= |toks|
  {
    if n == 0 then 0
    else
      Hits(q, tid, f, toks, n - 1, k)
      + if Matches(q, tid, toks[n - 1]) && TokenKey(q, f, toks[n - 1].span.start) == k then 1 else 0
  }

  /** The same over every wanted file with an id below `n`. */
  function HitsIn(q: Query, tid: u32, l: Library, n: nat, k: Key): nat
    requires ValidLibrary(l)
  {
    if n == 0 then 0
    else
      var fid := n - 1;
      HitsIn(q, tid, l, fid, k)
      + if fid in l.info && Wanted(q, l.info[fid]) then Hits(q, tid, l.info[fid], l.toks[fid], |l.toks[fid]|, k) else 0
  }

  lemma {:induction false} ScannedCounts(q: Query, tid: u32, f: FileInfo, toks: seq<Tok>, n: nat, rows: Rows, k: Key)
    requires n <= |toks|
    ensures At(Scanned(q, tid, f, toks, n, rows), k) == At(rows, k) + Hits(q, tid, f, toks, n, k)
    ensures k in Scanned(q, tid, f, toks, n, rows) <==> k in rows || Hits(q, tid, f, toks, n, k) > 0
  {
    if n == 0 {
    } else {
      ScannedCounts(q, tid, f, toks, n - 1, rows, k);
    }
  }

  /** A row is there exactly when something matches in it, with the number of matches. */
  lemma {:induction false} RowsCountHits(q: Query, tid: u32, l: Library, n: nat, k: Key)
    requires ValidLibrary(l)
    ensures At(Collect(q, tid, l, l.info.Keys, map[], n), k) == HitsIn(q, tid, l, n, k)
    ensures k in Collect(q, tid, l, l.info.Keys, map[], n) <==> HitsIn(q, tid, l, n, k) > 0
  {
    if n == 0 {
    } else {
      RowsCountHits(q, tid, l, n - 1, k);
      if n - 1 in l.info {
        ScannedCounts(q, tid, l.info[n - 1], l.toks[n - 1], |l.toks[n - 1]|, Collect(q, tid, l, l.info.Keys, map[], n - 1), k);
      }
    }
  }
}
