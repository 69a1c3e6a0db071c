/**
 What a search answers, in terms of the files alone (spikes/data-model/spike.rs): after any
 history every row, at every grain, counts the matching tokens of the last versions of the
 wanted files, and there are no other rows.
 */
module Answers {
  import opened Options
  import opened Tokens
  import opened Codec
  import opened Postings
  import opened Index
  import opened Containment
  import S = Search
  import opened Store
  import opened Tree
  import opened Histories
  import opened Queries

  // ---- what the files say

  function SymsFrom(first: nat, sy: seq<SymDecl>): seq<S.Sym> {
    seq(|sy|, i requires 0 <= i < |sy| => S.Sym(first + i, sy[i].kind, Range(sy[i].span.start, sy[i].span.end)))
  }

  /** The file at `w` whose symbols have the ids from `first` on. */
  function InfoFor(w: Where, x: Content, first: nat): S.FileInfo {
    S.FileInfo(w.org, w.repo, w.path, x.lang, SymsFrom(first, x.symbols))
  }

  predicate TokenMatches(q: S.Query, t: TokDecl) {
    t.text == q.text && (q.kind.Some? ==> q.kind.value == t.kind)
  }

  /** The matching tokens that belong to the row `k`. */
  function Matching(q: S.Query, f: S.FileInfo, tk: seq<TokDecl>, k: S.Key): nat {
    if tk == [] then 0
    else
      Matching(q, f, tk[..|tk| - 1], k)
      + if TokenMatches(q, tk[|tk| - 1]) && S.TokenKey(q, f, tk[|tk| - 1].span.start) == k then 1 else 0
  }

  /** What a file should count in the row `k`. */
  function Expected(q: S.Query, f: S.FileInfo, tk: seq<TokDecl>, k: S.Key): nat {
    if S.Wanted(q, f) then Matching(q, f, tk, k) else 0
  }

  /** The id of the first symbol of the file at `w`. */
  function FirstId(t: Tables, w: Where): nat {
    var f := Find(t.names, w);
    if f.Some? && f.value in t.ent && t.ent[f.value].File? then t.ent[f.value].firstSym else 0
  }

  type Weigh = Where -> nat

  function CountIn(t: Tables, shelf: Shelf, q: S.Query, k: S.Key): Weigh {
    (w: Where) => if w in shelf then Expected(q, InfoFor(w, shelf[w], FirstId(t, w)), shelf[w].tokens, k) else 0
  }

  ghost function SumOver(ws: set<Where>, g: Weigh): nat {
    if ws == {} then 0 else var w :| w in ws; g(w) + SumOver(ws - {w}, g)
  }

  lemma {:induction false} SumTakes(ws: set<Where>, g: Weigh, w: Where)
    requires w in ws
    ensures SumOver(ws, g) == g(w) + SumOver(ws - {w}, g)
    decreases ws
  {
    var v :| v in ws && SumOver(ws, g) == g(v) + SumOver(ws - {v}, g);
    if v != w {
      SumTakes(ws - {v}, g, w);
      SumTakes(ws - {w}, g, v);
      assert ws - {v} - {w} == ws - {w} - {v};
    }
  }

  lemma {:induction false} SumOfZeros(ws: set<Where>, g: Weigh)
    requires forall w :: w in ws ==> g(w) == 0
    ensures SumOver(ws, g) == 0
    decreases ws
  {
    if ws == {} {
    } else {
      var w :| w in ws;
      SumTakes(ws, g, w);
      SumOfZeros(ws - {w}, g);
    }
  }

  // ---- a file's own tokens

  lemma TermIsText(d: Dict, t: Tok, u: TokDecl, q: S.Query)
    requires DictOk(d) && q.text in d.ids && t.term in d.texts && d.texts[t.term] == u.text && t.kind == u.kind
    ensures S.Matches(q, d.ids[q.text], t) <==> TokenMatches(q, u)
  {
  }

  lemma {:induction false} HitsAreMatches(q: S.Query, d: Dict, f: S.FileInfo, r: seq<Tok>, tk: seq<TokDecl>, n: nat, k: S.Key)
    requires DictOk(d) && q.text in d.ids && StreamTells(d, r, tk) && n <= |r|
    ensures S.Hits(q, d.ids[q.text], f, r, n, k) == Matching(q, f, tk[..n], k)
  {
    if n == 0 {
    } else {
      HitsAreMatches(q, d, f, r, tk, n - 1, k);
      assert tk[..n][..n - 1] == tk[..n - 1] && tk[..n][n - 1] == tk[n - 1];
      TermIsText(d, r[n - 1], tk[n - 1], q);
    }
  }

  lemma FileCounts(d: Dict, b: seq<Byte>, q: S.Query, f: S.FileInfo, tk: seq<TokDecl>, k: S.Key)
    requires DictOk(d) && q.text in d.ids && Stored(d, b, tk)
    ensures S.Hits(q, d.ids[q.text], f, Decoded(d, b), |Decoded(d, b)|, k) == Matching(q, f, tk, k)
  {
    BodyTells(d, tk);
    HitsAreMatches(q, d, f, Decoded(d, b), tk, |tk|, k);
    assert tk[..|tk|] == tk;
  }

  lemma {:induction false} UnknownNeverMatches(q: S.Query, d: Dict, f: S.FileInfo, tk: seq<TokDecl>, k: S.Key)
    requires Known(d, tk) && q.text !in d.ids
    ensures Matching(q, f, tk, k) == 0
  {
    if tk == [] {
    } else {
      UnknownNeverMatches(q, d, f, tk[..|tk| - 1], k);
    }
  }

  // ---- all files

  /** Where the files below `n` are. */
  function Below(at: Places, files: set<nat>, n: nat): set<Where> {
    set f | f in files && f < n && at(f).Some? :: at(f).value
  }

  ghost predicate Placed(at: Places, files: set<nat>) {
    && (forall f :: f in files ==> at(f).Some?)
    && (forall f, g :: f in files && g in files && at(f) == at(g) ==> f == g)
  }

  lemma BelowNext(at: Places, files: set<nat>, n: nat)
    requires Placed(at, files) && n in files
    ensures at(n).value !in Below(at, files, n) && Below(at, files, n + 1) - {at(n).value} == Below(at, files, n)
    ensures at(n).value in Below(at, files, n + 1)
  {
  }

  /** What file `f` of a library counts. */
  function Contributes(q: S.Query, tid: u32, l: S.Library, f: nat, k: S.Key): nat
    requires S.ValidLibrary(l)
  {
    if f in l.info && S.Wanted(q, l.info[f]) then S.Hits(q, tid, l.info[f], l.toks[f], |l.toks[f]|, k) else 0
  }

  lemma BelowSkips(at: Places, files: set<nat>, n: nat)
    requires n !in files
    ensures Below(at, files, n + 1) == Below(at, files, n)
  {
  }

  function Total(h: nat -> nat, n: nat): nat {
    if n == 0 then 0 else Total(h, n - 1) + h(n - 1)
  }

  /** `h` counts by file what `g` counts by place. */
  ghost predicate Weighs(at: Places, files: set<nat>, h: nat -> nat, g: Weigh) {
    forall f: nat :: h(f) == if f in files && at(f).Some? then g(at(f).value) else 0
  }

  lemma {:induction false} TotalIsSum(at: Places, files: set<nat>, h: nat -> nat, g: Weigh, n: nat)
    requires Placed(at, files) && Weighs(at, files, h, g)
    ensures Total(h, n) == SumOver(Below(at, files, n), g)
  {
    if n == 0 {
      assert Below(at, files, n) == {};
    } else {
      TotalIsSum(at, files, h, g, n - 1);
      TotalNext(at, files, h, g, n - 1);
    }
  }

  lemma TotalNext(at: Places, files: set<nat>, h: nat -> nat, g: Weigh, n: nat)
    requires Placed(at, files) && Weighs(at, files, h, g)
    ensures SumOver(Below(at, files, n + 1), g) == SumOver(Below(at, files, n), g) + h(n)
  {
    if n in files {
      BelowNext(at, files, n);
      SumTakes(Below(at, files, n + 1), g, at(n).value);
    } else {
      BelowSkips(at, files, n);
    }
  }

  function PerFile(q: S.Query, tid: u32, l: S.Library, k: S.Key): nat -> nat
    requires S.ValidLibrary(l)
  {
    (f: nat) => Contributes(q, tid, l, f, k)
  }

  lemma {:induction false} HitsAreTotal(q: S.Query, tid: u32, l: S.Library, n: nat, k: S.Key)
    requires S.ValidLibrary(l)
    ensures S.HitsIn(q, tid, l, n, k) == Total(PerFile(q, tid, l, k), n)
  {
    if n == 0 {
    } else {
      HitsAreTotal(q, tid, l, n - 1, k);
    }
  }

  // ---- the tables and the shelf

  lemma SymsAre(ent: Ents, f: nat, slot: Slot)
    requires Describable(ent, f) && FileHolds(ent, f, slot)
    ensures InfoOf(ent, f).syms == SymsFrom(slot.first, slot.item.symbols)
  {
    forall i | 0 <= i < |slot.item.symbols|
      ensures InfoOf(ent, f).syms[i] == SymsFrom(slot.first, slot.item.symbols)[i]
    {
      RecordCarries(ent, f, slot, slot.first + i);
    }
  }

  lemma FirstIs(t: Tables, slots: Slots, f: nat, w: Where)
    requires TreeOk(t, slots, None) && f in slots && WhereOf(t.ent, f) == Some(w)
    ensures FirstId(t, w) == slots[f].first && FileHolds(t.ent, f, slots[f])
  {
    FindIs(t.next, t.names, t.ent, w, f);
  }

  lemma InfoIs(t: Tables, slots: Slots, f: nat, w: Where)
    requires TreeOk(t, slots, None) && f in slots && Describable(t.ent, f) && WhereOf(t.ent, f) == Some(w)
    ensures InfoOf(t.ent, f) == InfoFor(w, slots[f].item, FirstId(t, w))
  {
    FirstIs(t, slots, f, w);
    SymsAre(t.ent, f, slots[f]);
  }

  lemma LibraryAt(t: Tables, f: nat)
    requires AllDescribable(t.ent, t.stream) && f in t.stream
    ensures f in LibraryOf(t).info && LibraryOf(t).info[f] == InfoOf(t.ent, f) && LibraryOf(t).toks[f] == Decoded(t.dict, t.stream[f])
  {
  }

  lemma FilesArePlaced(t: Tables, slots: Slots)
    requires TreeOk(t, slots, None)
    ensures Placed(PlacesOf(t.ent), slots.Keys)
  {
    forall f | f in slots
      ensures WhereOf(t.ent, f).Some?
    {
      assert FileHolds(t.ent, f, slots[f]);
      EveryFileIsSomewhere(t.next, t.names, t.ent, f);
    }
    forall f, g | f in slots && g in slots && WhereOf(t.ent, f) == WhereOf(t.ent, g)
      ensures f == g
    {
      OnlyOneThere(t.next, t.names, t.ent, f, g);
    }
  }

  lemma PlacesAreShelf(at: Places, slots: Slots, shelf: Shelf, n: nat)
    requires Represents(at, slots, shelf) && forall f :: f in slots ==> f < n
    ensures Below(at, slots.Keys, n) == shelf.Keys
  {
  }

  lemma FileWeighs(c: Config, t: Tables, slots: Slots, shelf: Shelf, q: S.Query, k: S.Key, f: nat)
    requires Holds(c, t, slots, shelf) && AllDescribable(t.ent, t.stream) && q.text in t.dict.ids && f in slots
    ensures WhereOf(t.ent, f).Some?
    ensures Contributes(q, t.dict.ids[q.text], LibraryOf(t), f, k) == CountIn(t, shelf, q, k)(WhereOf(t.ent, f).value)
  {
    assert PlacesOf(t.ent)(f).Some?;
    var w := WhereOf(t.ent, f).value;
    InfoIs(t, slots, f, w);
    assert Stored(t.dict, t.stream[f], slots[f].item.tokens);
    LibraryAt(t, f);
    FileCounts(t.dict, t.stream[f], q, InfoOf(t.ent, f), slots[f].item.tokens, k);
  }

  lemma ScanIsSum(c: Config, t: Tables, slots: Slots, shelf: Shelf, q: S.Query, k: S.Key)
    requires Holds(c, t, slots, shelf) && AllDescribable(t.ent, t.stream) && q.text in t.dict.ids
    ensures S.HitsIn(q, t.dict.ids[q.text], LibraryOf(t), t.next, k) == SumOver(shelf.Keys, CountIn(t, shelf, q, k))
  {
    var l, at, g := LibraryOf(t), PlacesOf(t.ent), CountIn(t, shelf, q, k);
    LibraryIs(t);
    FilesArePlaced(t, slots);
    var tid := t.dict.ids[q.text];
    forall f: nat
      ensures PerFile(q, tid, l, k)(f) == if f in slots.Keys && at(f).Some? then g(at(f).value) else 0
    {
      if f in slots {
        FileWeighs(c, t, slots, shelf, q, k, f);
      }
    }
    HitsAreTotal(q, tid, l, t.next, k);
    TotalIsSum(at, slots.Keys, PerFile(q, tid, l, k), g, t.next);
    forall f | f in slots
      ensures f < t.next
    {
      assert FileHolds(t.ent, f, slots[f]);
    }
    PlacesAreShelf(at, slots, shelf, t.next);
  }

  lemma UnknownWeighsNothing(c: Config, t: Tables, slots: Slots, shelf: Shelf, q: S.Query, k: S.Key, w: Where)
    requires Holds(c, t, slots, shelf) && q.text !in t.dict.ids
    ensures CountIn(t, shelf, q, k)(w) == 0
  {
    var fid := FoundIsLatest(c, t, slots, shelf, w);
    if fid.Some? {
      assert Stored(t.dict, t.stream[fid.value], shelf[w].tokens);
      UnknownNeverMatches(q, t.dict, InfoFor(w, shelf[w], FirstId(t, w)), shelf[w].tokens, k);
    }
  }

  lemma RowsAreExpected(c: Config, t: Tables, slots: Slots, shelf: Shelf, q: S.Query, k: S.Key)
    requires Holds(c, t, slots, shelf) && Searchable(t)
    ensures var n := SumOver(shelf.Keys, CountIn(t, shelf, q, k)); S.At(ByScan(t, q), k) == n && (k in ByScan(t, q) <==> n > 0)
  {
    if q.text !in t.dict.ids {
      forall w | w in shelf.Keys
        ensures CountIn(t, shelf, q, k)(w) == 0
      {
        UnknownWeighsNothing(c, t, slots, shelf, q, k, w);
      }
      SumOfZeros(shelf.Keys, CountIn(t, shelf, q, k));
    } else {
      LibraryIs(t);
      S.RowsCountHits(q, t.dict.ids[q.text], LibraryOf(t), t.next, k);
      ScanIsSum(c, t, slots, shelf, q, k);
    }
  }

  /** After every history of ingests and deletes, for every query at every grain and every row
      key: the row is there exactly when a token of the last version of a wanted file belongs to
      it, and counts all those that do. */
  lemma SearchAnswersAlways(c: Config, ops: seq<Op>, q: S.Query, k: S.Key)
    requires |Vocabulary(ops)| <= U32
    ensures Searchable(Run(c, ops))
    ensures var rows, n := Searched(c, Run(c, ops), q), SumOver(Latest(ops).Keys, CountIn(Run(c, ops), Latest(ops), q, k));
            S.At(rows, k) == n && (k in rows <==> n > 0)
  {
    var slots := RunHolds(c, ops);
    var t := Run(c, ops);
    AlwaysSearchable(c, t, slots);
    SearchAgrees(c, t, slots, q);
    RowsAreExpected(c, t, slots, Latest(ops), q, k);
  }

  /** The ids from `x` and the ids from `y` on have none in common. */
  predicate Apart(x: nat, n: nat, y: nat, m: nat) {
    n == 0 || m == 0 || x + n <= y || y + m <= x
  }

  /** And no symbol id names symbols of two files. */
  lemma SymbolIdsAreApart(c: Config, ops: seq<Op>, v: Where, w: Where)
    requires |Vocabulary(ops)| <= U32 && v in Latest(ops) && w in Latest(ops) && v != w
    ensures var t := Run(c, ops);
            Apart(FirstId(t, v), |Latest(ops)[v].symbols|, FirstId(t, w), |Latest(ops)[w].symbols|)
  {
    var slots := RunHolds(c, ops);
    var t := Run(c, ops);
    var f := FoundIsLatest(c, t, slots, Latest(ops), v);
    var g := FoundIsLatest(c, t, slots, Latest(ops), w);
    IdsAreApart(t, slots, v, f.value, w, g.value);
  }

  lemma IdsAreApart(t: Tables, slots: Slots, v: Where, f: nat, w: Where, g: nat)
    requires TreeOk(t, slots, None) && v != w && Find(t.names, v) == Some(f) && Find(t.names, w) == Some(g) && f in slots && g in slots
    ensures Apart(FirstId(t, v), |slots[f].item.symbols|, FirstId(t, w), |slots[g].item.symbols|)
  {
    FindIs(t.next, t.names, t.ent, v, f);
    FindIs(t.next, t.names, t.ent, w, g);
    assert FileHolds(t.ent, f, slots[f]) && FileHolds(t.ent, g, slots[g]);
    var s := if slots[f].first >= slots[g].first then slots[f].first else slots[g].first;
    assert f != g && !(Owns(slots, f, s) && Owns(slots, g, s));
  }

  // ---- rows within one file

  /** At these grains a row lies within one file. */
  predicate WithinFile(q: S.Query) {
    q.grain.FileGrain? || q.grain.TokenGrain? || q.grain.SymbolGrain?
  }

  lemma {:induction false} NoMatchesElsewhere(q: S.Query, f: S.FileInfo, tk: seq<TokDecl>, k: S.Key)
    requires WithinFile(q) && (f.org != k.org || f.repo != k.repo || f.name != k.path)
    ensures Matching(q, f, tk, k) == 0
  {
    if tk == [] {
    } else {
      NoMatchesElsewhere(q, f, tk[..|tk| - 1], k);
    }
  }

  /** By file, token or symbol only the file the row names counts. */
  lemma RowOfOneFile(t: Tables, shelf: Shelf, q: S.Query, k: S.Key)
    requires WithinFile(q)
    ensures SumOver(shelf.Keys, CountIn(t, shelf, q, k)) == CountIn(t, shelf, q, k)(Where(k.org, k.repo, k.path))
  {
    var g, w := CountIn(t, shelf, q, k), Where(k.org, k.repo, k.path);
    forall v | v in shelf.Keys && v != w
      ensures g(v) == 0
    {
      NoMatchesElsewhere(q, InfoFor(v, shelf[v], FirstId(t, v)), shelf[v].tokens, k);
    }
    if w in shelf {
      SumTakes(shelf.Keys, g, w);
    }
    SumOfZeros(shelf.Keys - {w}, g);
    assert w !in shelf ==> shelf.Keys - {w} == shelf.Keys;
  }
}
