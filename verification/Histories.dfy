/**
 The prototype store over every history of ingests and deletes (spikes/data-model/spike.rs):
 the tables hold exactly the last version of every file, and the postings are exactly those
 of the live streams.
 */
module Histories {
  import opened Options
  import opened Tokens
  import opened Codec
  import opened Postings
  import opened Index
  import opened Store
  import opened Dictionary
  import opened Tree

  // ---- streams and postings

  predicate Stored(d: Dict, b: seq<Byte>, tk: seq<TokDecl>) {
    |tk| < U64 && Known(d, tk) && b == Body(d, tk)
  }

  ghost predicate StreamsOk(d: Dict, stream: Streams, slots: Slots) {
    && stream.Keys == slots.Keys
    && forall f :: f in slots ==> Stored(d, stream[f], slots[f].item.tokens)
  }

  /** The term ids of every live stream. */
  function LiveIn(d: Dict, slots: Slots): Live {
    map f | f in slots && Known(d, slots[f].item.tokens) :: IdsIn(d, slots[f].item.tokens)
  }

  ghost predicate BodiesOk(c: Config, d: Dict, stream: Streams, post: Posts, slots: Slots) {
    && DictOk(d)
    && StreamsOk(d, stream, slots)
    && IndexOk(c, d, Deltaed(), LiveIn(d, slots), post)
  }

  lemma StreamsGrow(d: Dict, e: Dict, stream: Streams, slots: Slots)
    requires DictOk(d) && DictOk(e) && Extends(d, e) && StreamsOk(d, stream, slots)
    ensures StreamsOk(e, stream, slots) && LiveIn(e, slots) == LiveIn(d, slots)
  {
    forall f | f in slots
      ensures Stored(e, stream[f], slots[f].item.tokens)
      ensures Known(d, slots[f].item.tokens) && Known(e, slots[f].item.tokens)
      ensures IdsIn(e, slots[f].item.tokens) == IdsIn(d, slots[f].item.tokens)
    {
      assert Stored(d, stream[f], slots[f].item.tokens);
      BodyGrows(d, e, slots[f].item.tokens);
      KnownGrows(d, e, slots[f].item.tokens);
    }
  }

  lemma StreamsWithout(d: Dict, stream: Streams, slots: Slots, f: nat)
    requires StreamsOk(d, stream, slots)
    ensures StreamsOk(d, stream - {f}, slots - {f}) && LiveIn(d, slots - {f}) == LiveIn(d, slots) - {f}
  {
  }

  /** The terms `remove_file_body` reads back are the file's. */
  lemma TermsRead(d: Dict, stream: Streams, slots: Slots, f: nat)
    requires DictOk(d) && StreamsOk(d, stream, slots) && f in slots
    ensures f in stream && f in LiveIn(d, slots)
    ensures DecodeStream(stream[f], LensOf(d)).Some? && Terms(Decoded(d, stream[f])) == LiveIn(d, slots)[f]
  {
    assert Stored(d, stream[f], slots[f].item.tokens);
    BodyReads(d, slots[f].item.tokens);
  }

  /** `remove_file_body` takes out the stream and exactly its postings. */
  lemma BodiesCleared(c: Config, d: Dict, stream: Streams, post: Posts, slots: Slots, f: nat, ts: seq<u32>)
    requires BodiesOk(c, d, stream, post, slots) && f in slots && f in stream && ts == Terms(Decoded(d, stream[f]))
    ensures BodiesOk(c, d, stream - {f}, WithoutPosts(post, f, ts), slots - {f})
  {
    StreamsWithout(d, stream, slots, f);
    TermsRead(d, stream, slots, f);
    IndexRemove(c, d, Deltaed(), LiveIn(d, slots), post, f);
  }

  lemma StreamsWith(d: Dict, stream: Streams, slots: Slots, f: nat, slot: Slot, b: seq<Byte>)
    requires StreamsOk(d, stream, slots) && Stored(d, b, slot.item.tokens)
    ensures StreamsOk(d, stream[f := b], slots[f := slot])
  {
    var slots' := slots[f := slot];
    forall g | g in slots'
      ensures Stored(d, stream[f := b][g], slots'[g].item.tokens)
    {
      if g != f {
        assert Stored(d, stream[g], slots[g].item.tokens);
      }
    }
  }

  lemma LiveWith(d: Dict, slots: Slots, f: nat, slot: Slot)
    requires Known(d, slot.item.tokens)
    ensures LiveIn(d, slots[f := slot]) == LiveIn(d, slots)[f := IdsIn(d, slot.item.tokens)]
  {
  }

  lemma IndexWith(c: Config, d: Dict, fm: Form, live: Live, post: Posts, f: nat, ids: seq<u32>)
    requires IndexOk(c, d, fm, live, post) && f !in live && forall t :: t in ids ==> t in d.texts
    ensures IndexOk(c, d, fm, live[f := ids], WithPosts(c, d, fm, post, f, ids, |ids|))
  {
    WithPostsAdds(c, d, fm, post, f, ids, |ids|);
    assert ids[..|ids|] == ids;
    IndexAdd(c, d, fm, live, post, WithPosts(c, d, fm, post, f, ids, |ids|), f, ids);
  }

  lemma BodiesWith(c: Config, d: Dict, stream: Streams, post: Posts, slots: Slots, f: nat, slot: Slot, ids: seq<u32>, b: seq<Byte>)
    requires BodiesOk(c, d, stream, post, slots) && f !in slots
    requires Stored(d, b, slot.item.tokens) && ids == IdsIn(d, slot.item.tokens)
    ensures BodiesOk(c, d, stream[f := b], WithPosts(c, d, Deltaed(), post, f, ids, |ids|), slots[f := slot])
  {
    StreamsWith(d, stream, slots, f, slot, b);
    LiveWith(d, slots, f, slot);
    IdsAreTexts(d, slot.item.tokens);
    IndexWith(c, d, Deltaed(), LiveIn(d, slots), post, f, ids);
  }

  lemma BodiesGrow(c: Config, d: Dict, e: Dict, stream: Streams, post: Posts, slots: Slots)
    requires BodiesOk(c, d, stream, post, slots) && DictOk(e) && Extends(d, e)
    ensures BodiesOk(c, e, stream, post, slots)
  {
    StreamsGrow(d, e, stream, slots);
    IndexGrows(c, d, e, Deltaed(), LiveIn(d, slots), post);
  }

  lemma BodiesFilled(c: Config, d: Dict, stream: Streams, post: Posts, slots: Slots, f: nat, slot: Slot, e: Dict, ids: seq<u32>)
    requires BodiesOk(c, d, stream, post, slots) && f !in slots
    requires (e, ids) == InternAll(d, Texts(slot.item.tokens)) && Fits(e)
    ensures BodiesOk(c, e, stream[f := EncodeStream(ToksWith(slot.item.tokens, ids), LensOf(e))],
                     WithPosts(c, e, Deltaed(), post, f, ids, |ids|), slots[f := slot])
  {
    var tk := slot.item.tokens;
    InternedAreKnown(d, tk);
    BodiesGrow(c, d, e, stream, post, slots);
    BodiesWith(c, e, stream, post, slots, f, slot, ids, EncodeStream(ToksWith(tk, ids), LensOf(e)));
  }

  // ---- the whole invariant

  ghost predicate Inv(c: Config, t: Tables, slots: Slots, hole: Option<nat>) {
    TreeOk(t, slots, hole) && BodiesOk(c, t.dict, t.stream, t.post, slots)
  }

  type Places = nat -> Option<Where>

  function PlacesOf(ent: Ents): Places {
    (f: nat) => WhereOf(ent, f)
  }

  /** The stored files are those of the shelf, each where it should be. */
  ghost predicate Represents(at: Places, slots: Slots, shelf: Shelf) {
    && (forall f :: f in slots ==> at(f).Some? && at(f).value in shelf && shelf[at(f).value] == slots[f].item)
    && (forall w :: w in shelf ==> exists f :: f in slots && at(f) == Some(w))
  }

  lemma BodiesAfterClear(c: Config, t: Tables, slots: Slots, f: nat)
    requires BodiesOk(c, t.dict, t.stream, t.post, slots) && f in t.ent && (f in slots <==> t.ent[f].File?)
    ensures var u := Cleared(t, f); BodiesOk(c, u.dict, u.stream, u.post, slots - {f})
  {
    if f in slots {
      BodiesCleared(c, t.dict, t.stream, t.post, slots, f, Terms(Decoded(t.dict, t.stream[f])));
    } else {
      assert slots - {f} == slots;
    }
  }

  lemma InvCleared(c: Config, t: Tables, slots: Slots, f: nat)
    requires Inv(c, t, slots, Some(f)) && f in t.ent && !t.ent[f].Symbol? && (f in slots <==> t.ent[f].File?)
    ensures Inv(c, Cleared(t, f), slots - {f}, Some(f))
  {
    TreeCleared(t, slots, f);
    BodiesAfterClear(c, t, slots, f);
  }

  lemma InvEnsured(c: Config, t: Tables, slots: Slots, n: Name)
    requires Inv(c, t, slots, None) && Rooted(t.ent, n)
    ensures var (u, id) := Ensured(t, n); Inv(c, u, slots, if n.kind == FILE then Some(id) else None)
  {
    TreeEnsured(t, slots, n);
  }

  lemma InvFilled(c: Config, t: Tables, slots: Slots, rid: nat, path: string, f: nat, x: Content)
    requires Inv(c, t, slots, Some(f)) && f in t.ent && !t.ent[f].Symbol? && NameKey(t.ent[f]) == Name(rid, FILE, path)
    requires f !in slots && Fits(Filled(c, t, rid, path, f, x).dict)
    ensures Inv(c, Filled(c, t, rid, path, f, x), slots[f := Slot(t.next, x)], None)
  {
    TreeFilled(c, t, slots, rid, path, f, x);
    var (e, ids) := InternAll(t.dict, Texts(x.tokens));
    BodiesFilled(c, t.dict, t.stream, t.post, slots, f, Slot(t.next, x), e, ids);
  }

  // ---- one file

  /** The file is emptied under its name, which is all that is new. */
  predicate Emptied(ent: Ents, ent': Ents, f: nat, n: Name) {
    && f in ent' && !ent'[f].Symbol? && NameKey(ent'[f]) == n
    && Kept(ent, ent', f)
    && (f in ent ==> !ent[f].Symbol? && NameKey(ent[f]) == n)
  }

  lemma InvEmptied(c: Config, t: Tables, slots: Slots, n: Name)
    requires Inv(c, t, slots, None) && Rooted(t.ent, n) && n.kind == FILE
    ensures var (u, f) := Ensured(t, n); Inv(c, Cleared(u, f), slots - {f}, Some(f)) && Emptied(t.ent, Cleared(u, f).ent, f, n)
  {
    var (u, f) := Ensured(t, n);
    TreeEnsured(t, slots, n);
    EnsuredKeeps(t, n, f);
    InvEnsured(c, t, slots, n);
    TreeCleared(u, slots, f);
    InvCleared(c, u, slots, f);
  }

  lemma RefilledReplaces(c: Config, ent: Ents, u: Tables, slots: Slots, f: nat, n: Name, x: Content)
    requires TreeOk(u, slots, Some(f)) && f !in slots && Emptied(ent, u.ent, f, n) && n.kind == FILE
    ensures Replaced(ent, Filled(c, u, n.parent, n.name, f, x).ent, f, n)
  {
    TreeFilled(c, u, slots, n.parent, n.name, f, x);
  }

  lemma PutAgain<K, V>(m: map<K, V>, k: K, v: V)
    ensures (m - {k})[k := v] == m[k := v]
  {
  }

  lemma InvRefilled(c: Config, ent: Ents, u: Tables, slots: Slots, f: nat, n: Name, x: Content)
    requires Inv(c, u, slots - {f}, Some(f)) && Emptied(ent, u.ent, f, n) && n.kind == FILE
    requires Fits(Filled(c, u, n.parent, n.name, f, x).dict)
    ensures Inv(c, Filled(c, u, n.parent, n.name, f, x), slots[f := Slot(u.next, x)], None)
    ensures Replaced(ent, Filled(c, u, n.parent, n.name, f, x).ent, f, n)
  {
    RefilledReplaces(c, ent, u, slots - {f}, f, n, x);
    InvFilled(c, u, slots - {f}, n.parent, n.name, f, x);
    PutAgain(slots, f, Slot(u.next, x));
  }

  lemma InvIngestedFile(c: Config, t: Tables, slots: Slots, rid: nat, path: string, x: Content) returns (f: nat, slot: Slot)
    requires Inv(c, t, slots, None) && IsContainer(t.ent, rid, REPO) && Fits(IngestedFile(c, t, rid, path, x).dict)
    ensures slot.item == Prepared(x)
    ensures var u := IngestedFile(c, t, rid, path, x);
            Inv(c, u, slots[f := slot], None) && Replaced(t.ent, u.ent, f, Name(rid, FILE, path))
  {
    var n := Name(rid, FILE, path);
    var (u, id) := Ensured(t, n);
    var v := Cleared(u, id);
    f, slot := id, Slot(v.next, Prepared(x));
    InvEmptied(c, t, slots, n);
    InvRefilled(c, t.ent, v, slots, f, n, Prepared(x));
  }

  lemma OnlyOneThere(next: nat, names: Names, ent: Ents, f: nat, g: nat)
    requires NamesOk(next, names, ent) && WhereOf(ent, f).Some? && WhereOf(ent, f) == WhereOf(ent, g)
    ensures f == g
  {
    FindIs(next, names, ent, WhereOf(ent, f).value, f);
    FindIs(next, names, ent, WhereOf(ent, f).value, g);
  }

  lemma SlotStays(t: Tables, u: Tables, slots: Slots, slots': Slots, f: nat, n: Name, g: nat)
    requires TreeOk(t, slots, None) && TreeOk(u, slots', None) && Replaced(t.ent, u.ent, f, n) && n.kind == FILE
    requires g in slots
    ensures WhereOf(u.ent, g) == WhereOf(t.ent, g)
  {
    assert FileHolds(t.ent, g, slots[g]);
    StaysThere(t.next, t.names, t.ent, u.ent, f, g);
  }

  /** No file has moved, and `f` is the one at `w`. */
  predicate Unmoved(at: Places, at': Places, slots: Slots, f: nat, w: Where) {
    && (forall g :: g in slots ==> at'(g) == at(g))
    && (forall g :: g in slots && at'(g) == Some(w) ==> g == f)
    && at'(f) == Some(w)
  }

  lemma ReplacedIsUnmoved(t: Tables, u: Tables, slots: Slots, f: nat, n: Name, slot: Slot, w: Where)
    requires TreeOk(t, slots, None) && TreeOk(u, slots[f := slot], None)
    requires Replaced(t.ent, u.ent, f, n) && n.kind == FILE && WhereOf(u.ent, f) == Some(w)
    ensures Unmoved(PlacesOf(t.ent), PlacesOf(u.ent), slots, f, w)
  {
    forall g | g in slots
      ensures WhereOf(u.ent, g) == WhereOf(t.ent, g) && (WhereOf(u.ent, g) == Some(w) ==> g == f)
    {
      SlotStays(t, u, slots, slots[f := slot], f, n, g);
      if WhereOf(u.ent, g) == Some(w) {
        OnlyOneThere(u.next, u.names, u.ent, f, g);
      }
    }
  }

  /** The shelf after one more version of the file at `w`. */
  lemma RepReplaced(at: Places, at': Places, slots: Slots, shelf: Shelf, f: nat, slot: Slot, w: Where)
    requires Represents(at, slots, shelf) && Unmoved(at, at', slots, f, w)
    ensures Represents(at', slots[f := slot], shelf[w := slot.item])
  {
    var slots', shelf' := slots[f := slot], shelf[w := slot.item];
    forall v | v in shelf'
      ensures exists g :: g in slots' && at'(g) == Some(v)
    {
      if v == w {
        assert f in slots';
      } else {
        var g :| g in slots && at(g) == Some(v);
        assert g in slots';
      }
    }
  }

  predicate RepoAt(ent: Ents, rid: nat, org: string, repo: string) {
    && IsContainer(ent, rid, REPO) && ent[rid].name == repo
    && IsContainer(ent, ent[rid].parent, ORG) && ent[ent[rid].parent].name == org
  }

  /** The tables hold the shelf. */
  ghost predicate Holds(c: Config, t: Tables, slots: Slots, shelf: Shelf) {
    Inv(c, t, slots, None) && Represents(PlacesOf(t.ent), slots, shelf)
  }

  lemma HoldsIngestedFile(c: Config, t: Tables, slots: Slots, shelf: Shelf, rid: nat, w: Where, x: Content) returns (slots': Slots)
    requires Holds(c, t, slots, shelf) && RepoAt(t.ent, rid, w.org, w.repo) && Fits(IngestedFile(c, t, rid, w.path, x).dict)
    ensures Holds(c, IngestedFile(c, t, rid, w.path, x), slots', shelf[w := Prepared(x)])
    ensures RepoAt(IngestedFile(c, t, rid, w.path, x).ent, rid, w.org, w.repo)
  {
    var u := IngestedFile(c, t, rid, w.path, x);
    var n := Name(rid, FILE, w.path);
    var f, slot := InvIngestedFile(c, t, slots, rid, w.path, x);
    slots' := slots[f := slot];
    RepoKept(t.ent, u.ent, f, n, rid, w);
    ReplacedIsUnmoved(t, u, slots, f, n, slot, w);
    RepReplaced(PlacesOf(t.ent), PlacesOf(u.ent), slots, shelf, f, slot, w);
  }

  lemma RepoKept(ent: Ents, ent': Ents, f: nat, n: Name, rid: nat, w: Where)
    requires RepoAt(ent, rid, w.org, w.repo) && Replaced(ent, ent', f, n) && n == Name(rid, FILE, w.path)
    ensures RepoAt(ent', rid, w.org, w.repo) && WhereOf(ent', f) == Some(w)
  {
  }

  lemma {:induction false} HoldsIngestedFiles(c: Config, t: Tables, slots: Slots, shelf: Shelf, rid: nat, org: string, repo: string,
                                              files: seq<Source>) returns (slots': Slots)
    requires Holds(c, t, slots, shelf) && RepoAt(t.ent, rid, org, repo) && Fits(IngestedFiles(c, t, rid, files).dict)
    ensures Holds(c, IngestedFiles(c, t, rid, files), slots', Shelved(shelf, org, repo, files))
    ensures RepoAt(IngestedFiles(c, t, rid, files).ent, rid, org, repo)
    decreases files
  {
    if files == [] {
      slots' := slots;
    } else {
      var front, f := files[..|files| - 1], files[|files| - 1];
      var mid := HoldsIngestedFiles(c, t, slots, shelf, rid, org, repo, front);
      slots' := HoldsIngestedFile(c, IngestedFiles(c, t, rid, front), mid, Shelved(shelf, org, repo, front), rid,
                                  Where(org, repo, f.path), f.content);
    }
  }

  // ---- a batch

  lemma SamePlaces(at: Places, at': Places, slots: Slots, shelf: Shelf)
    requires Represents(at, slots, shelf) && forall f :: f in slots ==> at'(f) == at(f)
    ensures Represents(at', slots, shelf)
  {
    forall w | w in shelf
      ensures exists f :: f in slots && at'(f) == Some(w)
    {
      var f :| f in slots && at(f) == Some(w);
      assert at'(f) == Some(w);
    }
  }

  lemma PlacesEnsured(t: Tables, slots: Slots, n: Name)
    requires TreeOk(t, slots, None)
    ensures forall f :: f in slots ==> WhereOf(Ensured(t, n).0.ent, f) == WhereOf(t.ent, f)
  {
    forall f | f in slots
      ensures WhereOf(Ensured(t, n).0.ent, f) == WhereOf(t.ent, f)
    {
      assert FileHolds(t.ent, f, slots[f]);
      EnsuredKeeps(t, n, t.next);
      StaysThere(t.next, t.names, t.ent, Ensured(t, n).0.ent, t.next, f);
    }
  }

  lemma HoldsEnsured(c: Config, t: Tables, slots: Slots, shelf: Shelf, n: Name)
    requires Holds(c, t, slots, shelf) && Rooted(t.ent, n) && n.kind != FILE
    ensures var (u, id) := Ensured(t, n);
            Holds(c, u, slots, shelf) && IsContainer(u.ent, id, n.kind) && NameKey(u.ent[id]) == n
  {
    TreeEnsured(t, slots, n);
    InvEnsured(c, t, slots, n);
    PlacesEnsured(t, slots, n);
    SamePlaces(PlacesOf(t.ent), PlacesOf(Ensured(t, n).0.ent), slots, shelf);
  }

  lemma EnsuredRepo(c: Config, t: Tables, slots: Slots, shelf: Shelf, org: string, repo: string)
    requires Holds(c, t, slots, shelf)
    ensures var (u, oid) := Ensured(t, Name(0, ORG, org)); var (v, rid) := Ensured(u, Name(oid, REPO, repo));
            Holds(c, v, slots, shelf) && RepoAt(v.ent, rid, org, repo)
  {
    var (u, oid) := Ensured(t, Name(0, ORG, org));
    HoldsEnsured(c, t, slots, shelf, Name(0, ORG, org));
    var n := Name(oid, REPO, repo);
    HoldsEnsured(c, u, slots, shelf, n);
    EnsuredKeeps(u, n, u.next);
  }

  lemma HoldsIngested(c: Config, t: Tables, slots: Slots, shelf: Shelf, org: string, repo: string, files: seq<Source>)
      returns (slots': Slots)
    requires Holds(c, t, slots, shelf) && Fits(Ingested(c, t, org, repo, files).dict)
    ensures Holds(c, Ingested(c, t, org, repo, files), slots', Shelved(shelf, org, repo, files))
  {
    EnsuredRepo(c, t, slots, shelf, org, repo);
    var (u, oid) := Ensured(t, Name(0, ORG, org));
    var (v, rid) := Ensured(u, Name(oid, REPO, repo));
    slots' := HoldsIngestedFiles(c, v, slots, shelf, rid, org, repo, files);
  }

  // ---- a delete

  lemma RepDropped(at: Places, at': Places, slots: Slots, shelf: Shelf, f: nat, w: Where)
    requires Represents(at, slots, shelf) && f in slots && at(f) == Some(w)
    requires forall g :: g in slots && g != f ==> at'(g) == at(g) && at(g) != Some(w)
    ensures Represents(at', slots - {f}, shelf - {w})
  {
    forall v | v in shelf - {w}
      ensures exists g :: g in slots - {f} && at'(g) == Some(v)
    {
      var g :| g in slots && at(g) == Some(v);
      assert g in slots - {f};
    }
  }

  lemma RepMissing(t: Tables, slots: Slots, shelf: Shelf, w: Where)
    requires TreeOk(t, slots, None) && Represents(PlacesOf(t.ent), slots, shelf) && Find(t.names, w).None?
    ensures w !in shelf
  {
    if w in shelf {
      var f :| f in slots && PlacesOf(t.ent)(f) == Some(w);
      FindIs(t.next, t.names, t.ent, w, f);
    }
  }

  lemma PlacesDropped(t: Tables, ent': Ents, slots: Slots, f: nat, w: Where)
    requires TreeOk(t, slots, None) && f in slots && WhereOf(t.ent, f) == Some(w) && Kept(t.ent, ent', f)
    ensures forall g :: g in slots && g != f ==> WhereOf(ent', g) == WhereOf(t.ent, g) && WhereOf(t.ent, g) != Some(w)
  {
    assert FileHolds(t.ent, f, slots[f]);
    forall g | g in slots && g != f
      ensures WhereOf(ent', g) == WhereOf(t.ent, g) && WhereOf(t.ent, g) != Some(w)
    {
      assert FileHolds(t.ent, g, slots[g]);
      StaysThere(t.next, t.names, t.ent, ent', f, g);
      if WhereOf(t.ent, g) == Some(w) {
        OnlyOneThere(t.next, t.names, t.ent, f, g);
      }
    }
  }

  /** `delete_file` before the name goes: the found file is a stored one. */
  lemma FoundIsStored(t: Tables, slots: Slots, w: Where, f: nat)
    requires TreeOk(t, slots, None) && Find(t.names, w) == Some(f)
    ensures f in slots && f in t.ent && t.ent[f].File? && WhereOf(t.ent, f) == Some(w)
    ensures RepoOf(t.names, w).Some? && NameKey(t.ent[f]) == Name(RepoOf(t.names, w).value, FILE, w.path)
  {
    FindIs(t.next, t.names, t.ent, w, f);
    assert FileHolds(t.ent, f, slots[f]);
  }

  lemma InvDropped(c: Config, ent: Ents, u: Tables, slots: Slots, f: nat, n: Name)
    requires Inv(c, u, slots, Some(f)) && f !in slots && Emptied(ent, u.ent, f, n) && n.kind == FILE
    ensures Inv(c, Dropped(u, f, n), slots, None) && Kept(ent, Dropped(u, f, n).ent, f)
  {
    TreeDropped(u, slots, f);
  }

  lemma InvEmptiedFile(c: Config, t: Tables, slots: Slots, f: nat)
    requires Inv(c, t, slots, None) && f in slots
    ensures f in t.ent && t.ent[f].File?
    ensures Inv(c, Cleared(t, f), slots - {f}, Some(f)) && Emptied(t.ent, Cleared(t, f).ent, f, NameKey(t.ent[f]))
  {
    assert FileHolds(t.ent, f, slots[f]);
    TreeCleared(t, slots, f);
    InvCleared(c, t, slots, f);
  }

  lemma HoldsDropped(c: Config, t: Tables, u: Tables, slots: Slots, shelf: Shelf, w: Where, f: nat, n: Name)
    requires Holds(c, t, slots, shelf) && f in slots && WhereOf(t.ent, f) == Some(w) && n.kind == FILE
    requires Inv(c, u, slots - {f}, Some(f)) && Emptied(t.ent, u.ent, f, n)
    ensures Holds(c, Dropped(u, f, n), slots - {f}, shelf - {w}) && w in shelf
  {
    var v := Dropped(u, f, n);
    InvDropped(c, t.ent, u, slots - {f}, f, n);
    PlacesDropped(t, v.ent, slots, f, w);
    assert PlacesOf(t.ent)(f) == Some(w);
    RepDropped(PlacesOf(t.ent), PlacesOf(v.ent), slots, shelf, f, w);
  }

  lemma HoldsDeletedFile(c: Config, t: Tables, slots: Slots, shelf: Shelf, w: Where, f: nat)
    requires Holds(c, t, slots, shelf) && Find(t.names, w) == Some(f)
    ensures f in t.ent && !t.ent[f].Symbol? && w in shelf
    ensures RepoOf(t.names, w).Some? && NameKey(t.ent[f]) == Name(RepoOf(t.names, w).value, FILE, w.path)
    ensures Holds(c, Dropped(Cleared(t, f), f, NameKey(t.ent[f])), slots - {f}, shelf - {w})
  {
    FoundIsStored(t, slots, w, f);
    InvEmptiedFile(c, t, slots, f);
    HoldsDropped(c, t, Cleared(t, f), slots, shelf, w, f, NameKey(t.ent[f]));
  }

  lemma NothingToRemove<K, V>(m: map<K, V>, k: K)
    requires k !in m
    ensures m - {k} == m
  {
  }

  /** `delete_file` takes out that file and nothing else, and says whether it was there. */
  lemma HoldsDeleted(c: Config, t: Tables, slots: Slots, shelf: Shelf, w: Where) returns (slots': Slots)
    requires Holds(c, t, slots, shelf)
    ensures Holds(c, Deleted(t, w).0, slots', shelf - {w})
    ensures Deleted(t, w).1 <==> w in shelf
  {
    if Find(t.names, w).None? {
      RepMissing(t, slots, shelf, w);
      NothingToRemove(shelf, w);
      slots' := slots;
      assert Deleted(t, w).0 == t;
    } else {
      var f := Find(t.names, w).value;
      slots' := slots - {f};
      HoldsDeletedFile(c, t, slots, shelf, w, f);
      assert Deleted(t, w).0 == Dropped(Cleared(t, f), f, NameKey(t.ent[f]));
    }
  }

  // ---- the texts of a history

  lemma FileTextsKept(x: Content)
    ensures FileTexts(Prepared(x)) == FileTexts(x)
  {
    PreparedIsSorted(x);
    SameTexts(x.tokens, Prepared(x).tokens);
    SameTexts(Prepared(x).tokens, x.tokens);
  }

  lemma SameTexts(a: seq<TokDecl>, b: seq<TokDecl>)
    requires multiset(a) == multiset(b)
    ensures TextSet(Texts(a)) <= TextSet(Texts(b))
  {
    forall s | s in TextSet(Texts(a))
      ensures s in TextSet(Texts(b))
    {
      var i :| 0 <= i < |a| && Texts(a)[i] == s;
      assert a[i] in multiset(a);
      assert a[i] in b;
      var j :| 0 <= j < |b| && b[j] == a[i];
      assert Texts(b)[j] == s;
    }
  }

  lemma FileCounted(c: Config, t: Tables, rid: nat, path: string, x: Content)
    ensures Adds(t.dict, IngestedFile(c, t, rid, path, x).dict, FileTexts(x))
  {
    FileTextsKept(x);
    InternAllCounts(t.dict, Texts(Prepared(x).tokens));
  }

  lemma {:induction false} FilesCounted(c: Config, t: Tables, rid: nat, files: seq<Source>)
    ensures Adds(t.dict, IngestedFiles(c, t, rid, files).dict, BatchTexts(files))
  {
    if files == [] {
      assert BatchTexts(files) == {};
    } else {
      var front, f := files[..|files| - 1], files[|files| - 1];
      var u := IngestedFiles(c, t, rid, front);
      FilesCounted(c, t, rid, front);
      FileCounted(c, u, rid, f.path, f.content);
      AddsThen(t.dict, u.dict, IngestedFile(c, u, rid, f.path, f.content).dict, BatchTexts(front), FileTexts(f.content));
    }
  }

  lemma BatchCounted(c: Config, t: Tables, org: string, repo: string, files: seq<Source>)
    ensures Adds(t.dict, Ingested(c, t, org, repo, files).dict, BatchTexts(files))
  {
    var (u, oid) := Ensured(t, Name(0, ORG, org));
    var (v, rid) := Ensured(u, Name(oid, REPO, repo));
    FilesCounted(c, v, rid, files);
  }

  /** The dictionary holds exactly the texts ever ingested, once each. */
  lemma {:induction false} RunCounted(c: Config, ops: seq<Op>)
    ensures Counted(Run(c, ops).dict) && Run(c, ops).dict.ids.Keys == Vocabulary(ops)
  {
    if ops == [] {
    } else {
      var front, op := ops[..|ops| - 1], ops[|ops| - 1];
      RunCounted(c, front);
      if op.Ingest? {
        BatchCounted(c, Run(c, front), op.org, op.repo, op.files);
      }
    }
  }

  /** Every text ever ingested has an id of its own exactly when there are no more of them
      than 32-bit ids. */
  lemma IdsAreDistinctIff(c: Config, ops: seq<Op>)
    ensures Distinguishes(Run(c, ops).dict) <==> |Vocabulary(ops)| <= U32
  {
    RunCounted(c, ops);
    if |Vocabulary(ops)| <= U32 {
      var _ := RunHolds(c, ops);
    } else {
      IdsCollide(Run(c, ops).dict);
    }
  }

  predicate Distinguishes(d: Dict) {
    forall s, t :: s in d.ids && t in d.ids && s != t ==> d.ids[s] != d.ids[t]
  }

  lemma IdsCollide(d: Dict)
    requires |d.ids| > U32
    ensures !Distinguishes(d)
  {
    if Distinguishes(d) {
      var image := set s | s in d.ids :: d.ids[s];
      ImageIsAsLarge(d.ids, d.ids.Keys);
      assert image == set s | s in d.ids.Keys :: d.ids[s];
      BoundedSet(image, U32);
    }
  }

  lemma {:induction false} ImageIsAsLarge(m: map<string, u32>, keys: set<string>)
    requires keys <= m.Keys && forall s, t :: s in m && t in m && s != t ==> m[s] != m[t]
    ensures |set s | s in keys :: m[s]| == |keys|
  {
    if keys == {} {
    } else {
      var s :| s in keys;
      ImageIsAsLarge(m, keys - {s});
      var rest := set t | t in keys - {s} :: m[t];
      assert m[s] !in rest;
      assert (set t | t in keys :: m[t]) == rest + {m[s]};
    }
  }

  lemma {:induction false} BoundedSet(xs: set<u32>, n: nat)
    requires forall x :: x in xs ==> x < n
    ensures |xs| <= n
  {
    if n == 0 {
      assert xs == {};
    } else {
      BoundedSet(xs - {n - 1}, n - 1);
    }
  }

  // ---- every history

  lemma EmptyHolds(c: Config)
    ensures Holds(c, EMPTY, map[], map[])
  {
    assert LiveIn(EMPTY.dict, map[]) == map[];
  }

  /** After every history of ingests, re-ingests and deletes whose texts the 32-bit ids can
      tell apart, the tables hold exactly the last version of every file that was not deleted
      since, and nothing else. */
  lemma RunHolds(c: Config, ops: seq<Op>) returns (slots: Slots)
    requires |Vocabulary(ops)| <= U32
    ensures Holds(c, Run(c, ops), slots, Latest(ops))
  {
    RunCounted(c, ops);
    slots := RunHoldsWhileItFits(c, ops);
  }

  lemma {:induction false} RunHoldsWhileItFits(c: Config, ops: seq<Op>) returns (slots: Slots)
    requires Fits(Run(c, ops).dict)
    ensures Holds(c, Run(c, ops), slots, Latest(ops))
    decreases ops
  {
    if ops == [] {
      EmptyHolds(c);
      slots := map[];
    } else {
      var front, op := ops[..|ops| - 1], ops[|ops| - 1];
      var mid := RunHoldsWhileItFits(c, front);
      var t := Run(c, front);
      match op {
        case Ingest(org, repo, files) => slots := HoldsIngested(c, t, mid, Latest(front), org, repo, files);
        case Delete(at) => slots := HoldsDeleted(c, t, mid, Latest(front), at);
      }
    }
  }
}
