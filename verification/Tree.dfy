/** The entity tree of the prototype store (spikes/data-model/spike.rs): names point to the
    entities that carry them, every symbol belongs to one live file, and nothing is left over. */
module Tree {
  import opened Options
  import opened Index
  import opened Store

  /** A stored file: where its symbols start, and its sorted content. */
  datatype Slot = Slot(first: nat, item: Content)
  type Slots = map<nat, Slot>

  // ---- names and containers

  function NameKey(e: Ent): Name
    requires !e.Symbol?
  {
    Name(e.parent, if e.File? then FILE else e.kind, e.name)
  }

  predicate IsContainer(ent: Ents, id: nat, kind: nat) {
    id in ent && ent[id].Container? && ent[id].kind == kind
  }

  predicate Rooted(ent: Ents, n: Name) {
    || (n.kind == ORG && n.parent == 0)
    || (n.kind == REPO && IsContainer(ent, n.parent, ORG))
    || (n.kind == FILE && IsContainer(ent, n.parent, REPO))
  }

  predicate Bears(names: Names, ent: Ents, id: nat)
    requires id in ent
  {
    !ent[id].Symbol? ==>
      && Rooted(ent, NameKey(ent[id]))
      && NameKey(ent[id]) in names && names[NameKey(ent[id])] == id
  }

  /** Names and the entities that carry them are in step. */
  ghost predicate NamesOk(next: nat, names: Names, ent: Ents) {
    && 0 < next
    && (forall id :: id in ent ==> 0 < id < next)
    && (forall n :: n in names ==> names[n] in ent && !ent[names[n]].Symbol? && NameKey(ent[names[n]]) == n)
    && (forall id :: id in ent ==> Bears(names, ent, id))
  }

  /** Every named entity but `f` stays as it is. */
  predicate Kept(ent: Ents, ent': Ents, f: nat) {
    forall id :: id in ent && !ent[id].Symbol? && id != f ==> id in ent' && ent'[id] == ent[id]
  }

  lemma NamesAdded(next: nat, names: Names, ent: Ents, n: Name)
    requires NamesOk(next, names, ent) && Rooted(ent, n) && n !in names
    ensures NamesOk(next + 1, names[n := next], ent[next := Container(n.kind, n.parent, n.name)])
  {
    var names', ent' := names[n := next], ent[next := Container(n.kind, n.parent, n.name)];
    forall id | id in ent'
      ensures Bears(names', ent', id)
    {
      assert id == next || Bears(names, ent, id);
    }
  }

  lemma NamesEnsured(t: Tables, n: Name)
    requires NamesOk(t.next, t.names, t.ent) && Rooted(t.ent, n)
    ensures var (u, id) := Ensured(t, n);
            && NamesOk(u.next, u.names, u.ent) && id in u.ent && !u.ent[id].Symbol? && NameKey(u.ent[id]) == n
            && (n.kind != FILE ==> IsContainer(u.ent, id, n.kind))
  {
    if n !in t.names {
      NamesAdded(t.next, t.names, t.ent, n);
    }
  }

  lemma EnsuredKeeps(t: Tables, n: Name, f: nat)
    requires NamesOk(t.next, t.names, t.ent)
    ensures Kept(t.ent, Ensured(t, n).0.ent, f)
  {
  }

  // ---- where a file is

  function WhereOf(ent: Ents, fid: nat): Option<Where> {
    if fid !in ent || ent[fid].Symbol? || NameKey(ent[fid]).kind != FILE then None
    else
      var rid := ent[fid].parent;
      if !IsContainer(ent, rid, REPO) || !IsContainer(ent, ent[rid].parent, ORG) then None
      else Some(Where(ent[ent[rid].parent].name, ent[rid].name, ent[fid].name))
  }

  lemma RepoIs(next: nat, names: Names, ent: Ents, w: Where, rid: nat)
    requires NamesOk(next, names, ent)
    ensures RepoOf(names, w) == Some(rid) <==>
              IsContainer(ent, rid, REPO) && ent[rid].name == w.repo
              && IsContainer(ent, ent[rid].parent, ORG) && ent[ent[rid].parent].name == w.org
  {
    var n := Name(0, ORG, w.org);
    if RepoOf(names, w).Some? {
      var m := Name(names[n], REPO, w.repo);
      assert NameKey(ent[names[n]]) == n && NameKey(ent[names[m]]) == m;
    }
    if IsContainer(ent, rid, REPO) {
      assert Bears(names, ent, rid);
      assert Bears(names, ent, ent[rid].parent);
    }
  }

  /** `delete_file` finds exactly the file that is there. */
  lemma FindIs(next: nat, names: Names, ent: Ents, w: Where, fid: nat)
    requires NamesOk(next, names, ent)
    ensures Find(names, w) == Some(fid) <==> WhereOf(ent, fid) == Some(w)
  {
    if Find(names, w) == Some(fid) {
      var rid := RepoOf(names, w).value;
      RepoIs(next, names, ent, w, rid);
      assert NameKey(ent[fid]) == Name(rid, FILE, w.path);
    }
    if WhereOf(ent, fid) == Some(w) {
      assert Bears(names, ent, fid);
      RepoIs(next, names, ent, w, ent[fid].parent);
    }
  }

  lemma EveryFileIsSomewhere(next: nat, names: Names, ent: Ents, fid: nat)
    requires NamesOk(next, names, ent) && fid in ent && !ent[fid].Symbol? && NameKey(ent[fid]).kind == FILE
    ensures WhereOf(ent, fid).Some?
  {
    assert Bears(names, ent, fid);
    assert Bears(names, ent, ent[fid].parent);
  }

  /** A file does not move while the containers stay and its record keeps its name. */
  lemma StaysThere(next: nat, names: Names, ent: Ents, ent': Ents, f: nat, g: nat)
    requires NamesOk(next, names, ent) && Kept(ent, ent', f) && (f in ent ==> !ent[f].Symbol? && NameKey(ent[f]).kind == FILE)
    requires g in ent && !ent[g].Symbol? && NameKey(ent[g]).kind == FILE
    requires g == f ==> f in ent' && !ent'[f].Symbol? && NameKey(ent'[f]) == NameKey(ent[f])
    ensures WhereOf(ent', g) == WhereOf(ent, g)
  {
    assert Bears(names, ent, g);
    assert Bears(names, ent, ent[g].parent);
  }

  /** `f` is now a file named `n`, and nothing else that has a name has changed. */
  predicate Replaced(ent: Ents, ent': Ents, f: nat, n: Name) {
    && f in ent' && ent'[f].File? && NameKey(ent'[f]) == n
    && Kept(ent, ent', f)
    && (f in ent ==> !ent[f].Symbol? && NameKey(ent[f]) == n)
  }

  // ---- symbols

  predicate Owns(slots: Slots, f: nat, s: nat) {
    f in slots && slots[f].first <= s < slots[f].first + |slots[f].item.symbols|
  }

  /** The file's record and symbols are those of its slot. */
  predicate FileHolds(ent: Ents, f: nat, slot: Slot) {
    var x := slot.item;
    && f in ent && ent[f].File?
    && ent[f] == File(ent[f].parent, ent[f].name, x.lang, x.err, x.fp, slot.first, |x.symbols|, |x.tokens|)
    && forall s :: slot.first <= s < slot.first + |x.symbols| ==> s in ent && ent[s] == Nth(RecordsOf(f, slot.first, x.symbols), slot.first, s)
  }

  ghost predicate HasOwner(slots: Slots, s: nat) {
    exists f :: Owns(slots, f, s)
  }

  ghost predicate SymbolsOk(next: nat, ent: Ents, slots: Slots) {
    && (forall f :: f in slots ==> FileHolds(ent, f, slots[f]) && slots[f].first + |slots[f].item.symbols| <= next)
    && (forall f, g, s :: Owns(slots, f, s) && Owns(slots, g, s) ==> f == g)
    && (forall s :: s in ent && ent[s].Symbol? ==> HasOwner(slots, s))
  }

  /** The symbol names table lists exactly the symbol entities. */
  ghost predicate SymTableOk(ent: Ents, syms: Syms) {
    forall p :: p in syms <==> p.1 in ent && ent[p.1].Symbol? && ent[p.1].decl.name == p.0
  }

  /** Every file entity is stored, but for the one being worked on. */
  ghost predicate FilesOk(ent: Ents, slots: Slots, hole: Option<nat>) {
    forall id :: id in ent && !ent[id].Symbol? && NameKey(ent[id]).kind == FILE && Some(id) != hole ==> id in slots
  }

  ghost predicate TreeOk(t: Tables, slots: Slots, hole: Option<nat>) {
    && NamesOk(t.next, t.names, t.ent)
    && SymbolsOk(t.next, t.ent, slots)
    && SymTableOk(t.ent, t.syms)
    && FilesOk(t.ent, slots, hole)
  }

  // ---- ensure

  lemma TreeEnsured(t: Tables, slots: Slots, n: Name)
    requires TreeOk(t, slots, None) && Rooted(t.ent, n)
    ensures var (u, id) := Ensured(t, n);
            && TreeOk(u, slots, if n.kind == FILE then Some(id) else None)
            && id in u.ent && !u.ent[id].Symbol? && NameKey(u.ent[id]) == n
            && (n.kind != FILE ==> IsContainer(u.ent, id, n.kind))
            && (id in slots <==> u.ent[id].File?)
  {
    NamesEnsured(t, n);
    var (u, id) := Ensured(t, n);
    SymbolsEnsured(t, slots, n);
    if n in t.names && n.kind == FILE {
      assert id in slots;
    }
  }

  lemma SymbolsEnsured(t: Tables, slots: Slots, n: Name)
    requires NamesOk(t.next, t.names, t.ent) && SymbolsOk(t.next, t.ent, slots) && SymTableOk(t.ent, t.syms)
    ensures var u := Ensured(t, n).0; SymbolsOk(u.next, u.ent, slots) && SymTableOk(u.ent, u.syms)
    ensures t.next !in slots
  {
  }

  // ---- remove_file_body

  lemma NamesWithout(next: nat, names: Names, ent: Ents, first: nat, n: nat)
    requires NamesOk(next, names, ent)
    requires forall s :: first <= s < first + n ==> s in ent && ent[s].Symbol?
    ensures NamesOk(next, names, WithoutRange(ent, first, n))
  {
    var ent' := WithoutRange(ent, first, n);
    forall id | id in ent'
      ensures Bears(names, ent', id)
    {
      assert Bears(names, ent, id);
    }
  }

  lemma SymbolsWithout(next: nat, ent: Ents, slots: Slots, f: nat)
    requires SymbolsOk(next, ent, slots) && f in slots
    ensures SymbolsOk(next, WithoutRange(ent, slots[f].first, |slots[f].item.symbols|), slots - {f})
  {
    var ent' := WithoutRange(ent, slots[f].first, |slots[f].item.symbols|);
    var slots' := slots - {f};
    forall g | g in slots'
      ensures FileHolds(ent', g, slots'[g])
    {
      HoldsWithout(ent, slots, f, g);
    }
    forall s | s in ent' && ent'[s].Symbol?
      ensures HasOwner(slots', s)
    {
      var g :| Owns(slots, g, s);
      assert !Owns(slots, f, s);
      assert Owns(slots', g, s);
    }
    assert forall g, s :: Owns(slots', g, s) ==> Owns(slots, g, s);
  }

  lemma HoldsWithout(ent: Ents, slots: Slots, f: nat, g: nat)
    requires f in slots && g in slots && f != g && FileHolds(ent, g, slots[g]) && FileHolds(ent, f, slots[f])
    requires forall s :: Owns(slots, f, s) && Owns(slots, g, s) ==> f == g
    ensures FileHolds(WithoutRange(ent, slots[f].first, |slots[f].item.symbols|), g, slots[g])
  {
    var ent' := WithoutRange(ent, slots[f].first, |slots[f].item.symbols|);
    var x := slots[g];
    forall s | x.first <= s < x.first + |x.item.symbols|
      ensures s in ent'
    {
      assert Owns(slots, g, s);
      assert !Owns(slots, f, s);
    }
  }

  lemma SymTableWithout(ent: Ents, syms: Syms, first: nat, n: nat)
    requires SymTableOk(ent, syms)
    ensures SymTableOk(WithoutRange(ent, first, n), WithoutNames(syms, ent, first, n))
  {
  }

  /** After `remove_file_body` none of the file's symbols is left, and every other file has its own. */
  lemma TreeCleared(t: Tables, slots: Slots, f: nat)
    requires TreeOk(t, slots, Some(f)) && f in t.ent && !t.ent[f].Symbol? && (f in slots <==> t.ent[f].File?)
    ensures var u := Cleared(t, f);
            TreeOk(u, slots - {f}, Some(f)) && Kept(t.ent, u.ent, f) && f in u.ent && u.ent[f] == t.ent[f]
  {
    if f in slots {
      var x := slots[f];
      NamesWithout(t.next, t.names, t.ent, x.first, |x.item.symbols|);
      SymbolsWithout(t.next, t.ent, slots, f);
      SymTableWithout(t.ent, t.syms, x.first, |x.item.symbols|);
    } else {
      assert slots - {f} == slots;
    }
  }

  // ---- delete_file

  lemma NamesDropped(next: nat, names: Names, ent: Ents, f: nat)
    requires NamesOk(next, names, ent) && f in ent && !ent[f].Symbol? && NameKey(ent[f]).kind == FILE
    ensures NamesOk(next, names - {NameKey(ent[f])}, ent - {f})
  {
    var ent', names' := ent - {f}, names - {NameKey(ent[f])};
    forall id | id in ent'
      ensures Bears(names', ent', id)
    {
      assert Bears(names, ent, id) && Bears(names, ent, f);
    }
  }

  lemma SymbolsDropped(next: nat, ent: Ents, slots: Slots, f: nat)
    requires SymbolsOk(next, ent, slots) && f in ent && !ent[f].Symbol? && f !in slots
    ensures SymbolsOk(next, ent - {f}, slots)
  {
    forall g | g in slots
      ensures FileHolds(ent - {f}, g, slots[g])
    {
      assert FileHolds(ent, g, slots[g]);
    }
  }

  lemma TreeDropped(t: Tables, slots: Slots, f: nat)
    requires TreeOk(t, slots, Some(f)) && f in t.ent && !t.ent[f].Symbol? && NameKey(t.ent[f]).kind == FILE && f !in slots
    ensures TreeOk(Dropped(t, f, NameKey(t.ent[f])), slots, None)
  {
    NamesDropped(t.next, t.names, t.ent, f);
    SymbolsDropped(t.next, t.ent, slots, f);
  }

  // ---- the new symbols and the file record

  /** `ent'` is `ent` with the file's new symbols from `first` on and its record. */
  predicate Grown(ent: Ents, ent': Ents, f: nat, slot: Slot) {
    && FileHolds(ent', f, slot)
    && (forall id :: id in ent && id != f ==> id in ent' && ent'[id] == ent[id])
    && (forall id :: id in ent' && id !in ent ==> slot.first <= id < slot.first + |slot.item.symbols|)
  }

  lemma FilledGrows(ent: Ents, f: nat, rid: nat, path: string, slot: Slot)
    requires f < slot.first && f in ent && forall id :: id in ent ==> id < slot.first
    ensures var x := slot.item;
            var ent' := Appended(ent, slot.first, RecordsOf(f, slot.first, x.symbols))[f := File(rid, path, x.lang, x.err, x.fp, slot.first, |x.symbols|, |x.tokens|)];
            Grown(ent, ent', f, slot) && NameKey(ent'[f]) == Name(rid, FILE, path)
  {
  }

  lemma NamesGrown(next: nat, names: Names, ent: Ents, ent': Ents, f: nat, slot: Slot)
    requires NamesOk(next, names, ent) && Grown(ent, ent', f, slot) && slot.first == next
    requires f in ent && !ent[f].Symbol? && NameKey(ent'[f]) == NameKey(ent[f]) && NameKey(ent[f]).kind == FILE
    ensures NamesOk(next + |slot.item.symbols|, names, ent') && Kept(ent, ent', f)
  {
    forall id | id in ent'
      ensures Bears(names, ent', id)
    {
      if id in ent {
        assert Bears(names, ent, id);
      }
    }
    forall n | n in names
      ensures names[n] in ent' && !ent'[names[n]].Symbol? && NameKey(ent'[names[n]]) == n
    {
      assert names[n] in ent;
    }
  }

  lemma SymbolsGrown(next: nat, ent: Ents, ent': Ents, slots: Slots, f: nat, slot: Slot)
    requires SymbolsOk(next, ent, slots) && Grown(ent, ent', f, slot) && slot.first == next
    requires f in ent && !ent[f].Symbol? && f !in slots && forall id :: id in ent ==> id < next
    ensures SymbolsOk(next + |slot.item.symbols|, ent', slots[f := slot])
  {
    var slots' := slots[f := slot];
    assert forall g, s :: g != f ==> (Owns(slots', g, s) <==> Owns(slots, g, s));
    forall g | g in slots'
      ensures FileHolds(ent', g, slots'[g]) && slots'[g].first + |slots'[g].item.symbols| <= next + |slot.item.symbols|
    {
      if g != f {
        assert FileHolds(ent, g, slots[g]);
      }
    }
    forall s | s in ent' && ent'[s].Symbol?
      ensures HasOwner(slots', s)
    {
      if s in ent {
        var g :| Owns(slots, g, s);
        assert Owns(slots', g, s);
      } else {
        assert Owns(slots', f, s);
      }
    }
  }

  lemma InWithNames(syms: Syms, first: nat, sy: seq<SymDecl>, p: (string, nat))
    ensures p in WithNames(syms, first, sy) <==> p in syms || (first <= p.1 < first + |sy| && sy[p.1 - first].name == p.0)
  {
    if first <= p.1 < first + |sy| && sy[p.1 - first].name == p.0 {
      assert p == (sy[p.1 - first].name, first + (p.1 - first));
    }
  }

  /** The records of a file's symbols carry their names. */
  lemma RecordCarries(ent: Ents, f: nat, slot: Slot, id: nat)
    requires FileHolds(ent, f, slot) && slot.first <= id < slot.first + |slot.item.symbols|
    ensures id in ent && ent[id].Symbol? && ent[id].decl == slot.item.symbols[id - slot.first]
  {
  }

  lemma SymRowGrown(ent: Ents, ent': Ents, syms: Syms, f: nat, slot: Slot, p: (string, nat))
    requires SymTableOk(ent, syms) && Grown(ent, ent', f, slot) && forall id :: id in ent ==> id < slot.first
    requires f in ent && !ent[f].Symbol?
    ensures p in WithNames(syms, slot.first, slot.item.symbols) <==> p.1 in ent' && ent'[p.1].Symbol? && ent'[p.1].decl.name == p.0
  {
    var sy := slot.item.symbols;
    InWithNames(syms, slot.first, sy, p);
    if slot.first <= p.1 < slot.first + |sy| {
      RecordCarries(ent', f, slot, p.1);
    }
  }

  lemma SymTableGrown(ent: Ents, ent': Ents, syms: Syms, f: nat, slot: Slot)
    requires SymTableOk(ent, syms) && Grown(ent, ent', f, slot) && forall id :: id in ent ==> id < slot.first
    requires f in ent && !ent[f].Symbol?
    ensures SymTableOk(ent', WithNames(syms, slot.first, slot.item.symbols))
  {
    forall p: (string, nat)
      ensures p in WithNames(syms, slot.first, slot.item.symbols) <==> p.1 in ent' && ent'[p.1].Symbol? && ent'[p.1].decl.name == p.0
    {
      SymRowGrown(ent, ent', syms, f, slot, p);
    }
  }

  lemma TreeFilled(c: Config, t: Tables, slots: Slots, rid: nat, path: string, f: nat, x: Content)
    requires TreeOk(t, slots, Some(f)) && f in t.ent && !t.ent[f].Symbol? && NameKey(t.ent[f]) == Name(rid, FILE, path)
    requires f !in slots
    ensures var u := Filled(c, t, rid, path, f, x);
            TreeOk(u, slots[f := Slot(t.next, x)], None) && Kept(t.ent, u.ent, f)
            && f in u.ent && u.ent[f].File? && NameKey(u.ent[f]) == NameKey(t.ent[f])
  {
    var u, slot := Filled(c, t, rid, path, f, x), Slot(t.next, x);
    FilledGrows(t.ent, f, rid, path, slot);
    NamesGrown(t.next, t.names, t.ent, u.ent, f, slot);
    SymbolsGrown(t.next, t.ent, u.ent, slots, f, slot);
    SymTableGrown(t.ent, u.ent, t.syms, f, slot);
  }
}
