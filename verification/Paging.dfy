/**
 Unlimited searches (crates/graph-client/src/reads.rs): when the server cuts an answer at its
 default limit the client pages through a snapshot handle. Nodes change between any two
 calls; a call may fail, wait, and go to any node it is not kept from.
 */
module Paging {
  import opened Basics
  import opened Options

  const DEFAULT_SEARCH_LIMIT: nat := 1000

  /** A node, as the rows of the query in its state and in its open handles. Handle ids are
      random 64-bit values; `used` says that a node does not draw the same one twice. */
  datatype Node<T> = Node(live: seq<T>, open: map<nat, seq<T>>, used: set<nat>)

  type World<T> = map<string, Node<T>>
  type History<!T> = nat -> World<T>

  /** Writes change the state; handles open on the current state and go away at any time. */
  ghost predicate NodeMoves<T>(n: Node<T>, n': Node<T>) {
    && n.used <= n'.used
    && forall id :: id in n'.open ==> id in n'.used && if id in n.used then id in n.open && n'.open[id] == n.open[id] else n'.open[id] == n'.live
  }

  ghost predicate WorldMoves<T(!new)>(w: World<T>, w': World<T>) {
    w'.Keys == w.Keys && forall a :: a in w ==> NodeMoves(w[a], w'[a])
  }

  /** A history starts without handles and moves step by step. */
  ghost predicate Moves<T(!new)>(h: History<T>) {
    && (forall a :: a in h(0) ==> h(0)[a].open == map[])
    && (forall t :: 0 < t ==> WorldMoves(h(t - 1), h(t)))
  }

  datatype View = Live | Snapshot(id: nat)

  /** The rows from `offset` on. */
  function From<T>(rows: seq<T>, offset: nat): seq<T> {
    rows[Min(offset, |rows|)..]
  }

  function Page<T>(rows: seq<T>, offset: nat, limit: nat): seq<T> {
    From(rows, offset)[..Min(limit, |From(rows, offset)|)]
  }

  /** The rows a view of a node shows; a handle that is not open has expired. */
  function RowsOf<T>(w: World<T>, a: string, view: View): Option<seq<T>> {
    if a !in w then None
    else if view.Live? then Some(w[a].live)
    else if view.id in w[a].open then Some(w[a].open[view.id])
    else None
  }

  /** The server's `search`: the page, and whether its default limit filled it. */
  function Serve<T>(w: World<T>, a: string, view: View, limit: Option<nat>, offset: nat): Option<(seq<T>, bool)> {
    var rows := RowsOf(w, a, view);
    if rows.None? then None
    else
      var page := Page(rows.value, offset, if limit.Some? then limit.value else DEFAULT_SEARCH_LIMIT);
      Some((page, limit.None? && |page| >= DEFAULT_SEARCH_LIMIT))
  }

  // ---- a handle is frozen

  lemma {:induction false} UsedStays<T(!new)>(h: History<T>, a: string, id: nat, t: nat, u: nat)
    requires Moves(h) && t <= u && a in h(t) && id in h(t)[a].used
    ensures a in h(u) && id in h(u)[a].used
    decreases u
  {
    if t == u {
    } else {
      UsedStays(h, a, id, t, u - 1);
      assert WorldMoves(h(u - 1), h(u));
    }
  }

  /** While a handle is open it shows the same rows. */
  lemma {:induction false} HandleIsFrozen<T(!new)>(h: History<T>, a: string, id: nat, t: nat, u: nat)
    requires Moves(h) && t <= u && a in h(t) && id in h(t)[a].open && a in h(u) && id in h(u)[a].open
    ensures h(u)[a].open[id] == h(t)[a].open[id]
    decreases u
  {
    if t == u {
    } else {
      var v := u - 1;
      assert WorldMoves(h(v), h(u));
      OpenIsUsed(h, a, id, t);
      UsedStays(h, a, id, t, v);
      HandleIsFrozen(h, a, id, t, v);
    }
  }

  lemma OpenIsUsed<T(!new)>(h: History<T>, a: string, id: nat, t: nat)
    requires Moves(h) && a in h(t) && id in h(t)[a].open
    ensures id in h(t)[a].used
  {
    assert 0 < t;
    assert WorldMoves(h(t - 1), h(t));
  }

  /** The rows of a handle are those of its node's state at some time. */
  lemma {:induction false} HandleIsAState<T(!new)>(h: History<T>, a: string, id: nat, t: nat) returns (u: nat)
    requires Moves(h) && a in h(t) && id in h(t)[a].open
    ensures u <= t && a in h(u) && h(u)[a].live == h(t)[a].open[id]
    decreases t
  {
    u := t;
    assert 0 < t;
    assert WorldMoves(h(t - 1), h(t));
    if id in h(t - 1)[a].used {
      u := HandleIsAState(h, a, id, t - 1);
    }
  }

  // ---- where the calls of a view may go

  /** Only to the node it is pinned to, if it is. */
  predicate Allowed(pins: map<nat, string>, view: View, a: string) {
    view.Snapshot? && view.id in pins ==> a == pins[view.id]
  }

  /** Whenever an allowed node shows the view, it shows these rows. */
  ghost predicate Frozen<T(!new)>(h: History<T>, pins: map<nat, string>, view: View, rows: seq<T>) {
    forall t: nat, a :: Allowed(pins, view, a) && RowsOf(h(t), a, view).Some? ==> RowsOf(h(t), a, view).value == rows
  }

  lemma SameRows<T(!new)>(h: History<T>, a: string, id: nat, t: nat, u: nat)
    requires Moves(h) && a in h(t) && id in h(t)[a].open && a in h(u) && id in h(u)[a].open
    ensures h(u)[a].open[id] == h(t)[a].open[id]
  {
    if t <= u {
      HandleIsFrozen(h, a, id, t, u);
    } else {
      HandleIsFrozen(h, a, id, u, t);
    }
  }

  /** A pinned handle shows one state for good. */
  lemma SnapshotIsFrozen<T(!new)>(h: History<T>, pins: map<nat, string>, id: nat) returns (rows: seq<T>)
    requires Moves(h) && id in pins
    ensures Frozen(h, pins, Snapshot(id), rows)
  {
    var view := Snapshot(id);
    if t: nat, a :| Allowed(pins, view, a) && RowsOf(h(t), a, view).Some? {
      rows := RowsOf(h(t), a, view).value;
      forall u: nat, b | Allowed(pins, view, b) && RowsOf(h(u), b, view).Some?
        ensures RowsOf(h(u), b, view).value == rows
      {
        assert a == b;
        SameRows(h, a, id, t, u);
      }
    } else {
      rows := [];
    }
  }

  // ---- any handle, pinned or not, has an end

  /** An allowed node shows `x` in row `i` of the view at some time. */
  ghost predicate Shown<T(!new)>(h: History<T>, pins: map<nat, string>, view: View, i: nat, x: T) {
    exists t: nat, a :: ShownAt(h, pins, view, i, x, t, a)
  }

  ghost predicate ShownAt<T(!new)>(h: History<T>, pins: map<nat, string>, view: View, i: nat, x: T, t: nat, a: string) {
    Allowed(pins, view, a) && RowsOf(h(t), a, view).Some? && i < |RowsOf(h(t), a, view).value| && RowsOf(h(t), a, view).value[i] == x
  }

  /** Row by row, these are rows that allowed nodes show from `start` on. */
  ghost predicate Gathered<T(!new)>(h: History<T>, pins: map<nat, string>, view: View, start: nat, rows: seq<T>) {
    forall i :: 0 <= i < |rows| ==> Shown(h, pins, view, start + i, rows[i])
  }

  /** At some time an allowed node shows no more than `n` rows. */
  ghost predicate EndsBy<T(!new)>(h: History<T>, pins: map<nat, string>, view: View, n: nat) {
    exists t: nat, a :: Allowed(pins, view, a) && RowsOf(h(t), a, view).Some? && |RowsOf(h(t), a, view).value| <= n
  }

  /** No node of `nodes` ever shows more than `n` rows. */
  ghost predicate Bounded<T(!new)>(h: History<T>, view: View, nodes: set<string>, n: nat) {
    forall t: nat, a :: a in nodes && RowsOf(h(t), a, view).Some? ==> |RowsOf(h(t), a, view).value| <= n
  }

  lemma {:induction false} SameNodes<T(!new)>(h: History<T>, t: nat)
    requires Moves(h)
    ensures h(t).Keys == h(0).Keys
  {
    if t == 0 {
    } else {
      SameNodes(h, t - 1);
      assert WorldMoves(h(t - 1), h(t));
    }
  }

  /** What one node shows under the handle, if it ever shows anything. */
  lemma NodeIsBounded<T(!new)>(h: History<T>, id: nat, a: string) returns (n: nat)
    requires Moves(h)
    ensures Bounded(h, Snapshot(id), {a}, n)
  {
    n := 0;
    if t: nat :| RowsOf(h(t), a, Snapshot(id)).Some? {
      n := |RowsOf(h(t), a, Snapshot(id)).value|;
      forall u: nat | RowsOf(h(u), a, Snapshot(id)).Some?
        ensures RowsOf(h(u), a, Snapshot(id)) == RowsOf(h(t), a, Snapshot(id))
      {
        SameRows(h, a, id, t, u);
      }
    }
  }

  lemma {:induction false} HandlesAreBounded<T(!new)>(h: History<T>, id: nat, nodes: set<string>) returns (n: nat)
    requires Moves(h)
    ensures Bounded(h, Snapshot(id), nodes, n)
    decreases nodes
  {
    if nodes == {} {
      n := 0;
    } else {
      var a :| a in nodes;
      var k := NodeIsBounded(h, id, a);
      var m := HandlesAreBounded(h, id, nodes - {a});
      n := m + k;
      forall t: nat, b | b in nodes && RowsOf(h(t), b, Snapshot(id)).Some?
        ensures |RowsOf(h(t), b, Snapshot(id)).value| <= n
      {
        assert b in {a} || b in nodes - {a};
      }
    }
  }

  // ---- the client

  /** What happens to a call: it fails, or is answered after a while by a node. */
  datatype Reply = Fails | Answered(after: nat, node: string)

  class Session<T(!new)> {
    const h: History<T>
    /** What happens to the `i`th call. */
    const world: nat -> Reply
    /** The id an opening call gets, if the node opens a handle. */
    const issued: nat -> Option<nat>
    var calls: nat
    var now: nat
    var pins: map<nat, string>

    constructor (h: History<T>, world: nat -> Reply, issued: nat -> Option<nat>)
      ensures this.h == h && this.world == world && this.issued == issued && pins == map[] && now == 0
    {
      this.h, this.world, this.issued := h, world, issued;
      calls, now, pins := 0, 0, map[];
    }

    /** One call of a view: `read_call` sends it to the pinned node, or anywhere. */
    method Ask(view: View) returns (r: Option<string>)
      modifies this`calls, this`now
      ensures now >= old(now) && (r.Some? ==> Allowed(pins, view, r.value))
    {
      var a := world(calls);
      calls := calls + 1;
      if a.Fails? {
        return None;
      }
      now := now + a.after;
      return Some(if view.Snapshot? && view.id in pins then pins[view.id] else a.node);
    }

    /** `search_page`. */
    method SearchPage(view: View, limit: Option<nat>, offset: nat) returns (r: Option<(seq<T>, bool)>, ghost node: string)
      modifies this`calls, this`now
      ensures now >= old(now)
      ensures r.Some? ==> Allowed(pins, view, node) && r == Serve(h(now), node, view, limit, offset)
    {
      var a := Ask(view);
      node := if a.Some? then a.value else "";
      if a.None? {
        return None, node;
      }
      r := Serve(h(now), a.value, view, limit, offset);
    }

    /** One page of a handle: what some allowed node shows there, and the page of its one state
        if it shows only one. */
    method FetchPage(view: View, size: nat, offset: nat, ghost rows: seq<T>, ghost n: nat) returns (r: Option<seq<T>>)
      requires Moves(h) && Bounded(h, view, h(0).Keys, n)
      modifies this`calls, this`now
      ensures now >= old(now)
      ensures r.Some? ==> Gathered(h, pins, view, offset, r.value)
      ensures r.Some? && |r.value| < size ==> EndsBy(h, pins, view, offset + |r.value|)
      ensures r.Some? && r.value != [] ==> offset + |r.value| <= n
      ensures r.Some? && Frozen(h, pins, view, rows) ==> r.value == Page(rows, offset, size)
    {
      var p, node := SearchPage(view, Some(size), offset);
      if p.None? {
        return None;
      }
      SameNodes(h, now);
      PageIsShown(h, pins, view, now, node, size, offset);
      if Frozen(h, pins, view, rows) {
        PageOfFrozen(h, pins, view, rows, now, node, size, offset);
      }
      return Some(p.value.0);
    }

    /** `page_all` over a handle: it ends, every row is one that a node the handle may be asked of
        shows at that place, it stops where such a node has no more, and the rows are those of one
        state from `start` on if that is all the handle shows. */
    method PageAll(view: View, size: nat, start: nat, ghost rows: seq<T>) returns (r: Option<seq<T>>)
      requires size >= 1 && Moves(h) && view.Snapshot?
      modifies this`calls, this`now
      ensures now >= old(now)
      ensures r.Some? ==> Gathered(h, pins, view, start, r.value) && EndsBy(h, pins, view, start + |r.value|)
      ensures r.Some? && Frozen(h, pins, view, rows) ==> r.value == From(rows, start)
    {
      hide Moves, Frozen, Gathered, EndsBy, Bounded;
      var out: seq<T>, offset: nat := [], start;
      NoneGathered(h, pins, view, start);
      ghost var n := HandlesAreBounded(h, view.id, h(0).Keys);
      ghost var one := Frozen(h, pins, view, rows);
      while true
        invariant now >= old(now) && offset == start + |out|
        invariant Gathered(h, pins, view, start, out)
        invariant one ==> From(rows, start) == out + From(rows, offset)
        decreases if offset <= n then n - offset + 1 else 0
      {
        var p := FetchPage(view, size, offset, rows, n);
        if p.None? {
          return None;
        }
        if one {
          PageJoins(rows, start, out, size);
        }
        ShownSoFar(h, pins, view, start, out, p.value);
        out := out + p.value;
        if |p.value| < size {
          return Some(out);
        }
        offset := offset + |p.value|;
      }
    }

    /** `open_snapshot`: the node opens a handle on its state, and the handle is pinned to it. */
    method OpenSnapshot() returns (id: Option<nat>, ghost node: string)
      modifies this
      ensures now >= old(now)
      ensures id.None? ==> pins == old(pins)
      ensures id.Some? ==> pins == old(pins)[id.value := node] && OpensAt(h, node, now, id.value)
    {
      var a := Ask(Live);
      node := if a.Some? then a.value else "";
      id := issued(calls);
      if a.None? || id.None? || !OpensAt(h, a.value, now, id.value) {
        return None, node;
      }
      pins := pins[id.value := a.value];
    }

    /** `close_snapshot`: the pin goes whatever becomes of the call. */
    method CloseSnapshot(id: nat)
      modifies this
      ensures now >= old(now) && pins == old(pins) - {id}
    {
      var _ := Ask(Snapshot(id));
      pins := pins - {id};
    }

    /** The paging under a fresh handle: one state of one node, as it was during the call. */
    method PageFresh(size: nat, offset: nat) returns (r: Option<seq<T>>, ghost node: string, ghost at: nat, ghost handle: Option<nat>)
      requires Moves(h) && size >= 1
      modifies this
      ensures pins == if handle.Some? then old(pins) - {handle.value} else old(pins)
      ensures old(now) <= at <= now
      ensures r.Some? ==> node in h(at) && r.value == From(h(at)[node].live, offset)
    {
      var id;
      id, node := OpenSnapshot();
      at, handle := now, id;
      if id.None? {
        return None, node, at, handle;
      }
      ghost var rows := SnapshotIsFrozen(h, pins, id.value);
      FreshRows(h, pins, node, at, id.value, rows);
      r := PageAll(Snapshot(id.value), size, offset, rows);
      CloseSnapshot(id.value);
    }

    /** `search`: under a live view or a pinned handle an answer is the rows of one state of one
        node from the offset on, up to the limit if there is one, and a live view shows a state the
        node had during the call. Under a handle that is not pinned every row is one that some
        node's handle of that id shows at that place, and only the limit or the end of such a
        handle ends the answer. */
    method Search(view: View, limit: Option<nat>, offset: nat)
        returns (r: Option<seq<T>>, ghost node: string, ghost at: nat, ghost handle: Option<nat>)
      requires Moves(h)
      modifies this
      ensures pins == if handle.Some? then old(pins) - {handle.value} else old(pins)
      ensures view.Live? && r.Some? ==> old(now) <= at <= now
      ensures view.Snapshot? ==> handle.None?
      ensures r.Some? && (view.Live? || view.id in old(pins)) ==>
                node in h(at) && r.value == Upto(From(h(at)[node].live, offset), limit)
      ensures r.Some? && view.Snapshot? ==>
                && Gathered(h, old(pins), view, offset, r.value)
                && (limit == Some(|r.value|) || EndsBy(h, old(pins), view, offset + |r.value|))
    {
      hide Moves;
      handle := None;
      ghost var rows: seq<T> := [];
      if view.Snapshot? && view.id in pins {
        rows := SnapshotIsFrozen(h, pins, view.id);
      }
      var p;
      p, node := SearchPage(view, limit, offset);
      at := now;
      if p.None? {
        return None, node, at, handle;
      }
      PageIsShown(h, pins, view, now, node, if limit.Some? then limit.value else DEFAULT_SEARCH_LIMIT, offset);
      node, at := StateBehind(h, now, node, view);
      if !p.value.1 {
        r := Some(p.value.0);
        return;
      }
      var size := if |p.value.0| > 1 then |p.value.0| else 1;
      if view.Snapshot? {
        r := PageAll(view, size, offset, rows);
      } else {
        r, node, at, handle := PageFresh(size, offset);
      }
    }
  }

  function Upto<T>(rows: seq<T>, limit: Option<nat>): seq<T> {
    if limit.Some? then rows[..Min(limit.value, |rows|)] else rows
  }

  /** The node opens the handle in this step. */
  predicate OpensAt<T(!new)>(h: History<T>, a: string, t: nat, id: nat) {
    && t > 0 && a in h(t - 1) && id !in h(t - 1)[a].used
    && a in h(t) && id in h(t)[a].open
  }

  lemma FreshRows<T(!new)>(h: History<T>, pins: map<nat, string>, a: string, t: nat, id: nat, rows: seq<T>)
    requires Moves(h) && OpensAt(h, a, t, id) && id in pins && pins[id] == a && Frozen(h, pins, Snapshot(id), rows)
    ensures h(t)[a].live == rows
  {
    assert WorldMoves(h(t - 1), h(t));
    assert Allowed(pins, Snapshot(id), a) && RowsOf(h(t), a, Snapshot(id)).value == rows;
  }

  /** What a view shows is a state the node had. */
  lemma StateBehind<T(!new)>(h: History<T>, t: nat, a: string, view: View) returns (node: string, at: nat)
    requires Moves(h) && RowsOf(h(t), a, view).Some?
    ensures node in h(at) && h(at)[node].live == RowsOf(h(t), a, view).value && (view.Live? ==> at == t)
  {
    node, at := a, t;
    if view.Snapshot? {
      at := HandleIsAState(h, a, view.id, t);
    }
  }

  lemma PageIsShown<T(!new)>(h: History<T>, pins: map<nat, string>, view: View, t: nat, a: string, size: nat, offset: nat)
    requires Allowed(pins, view, a) && RowsOf(h(t), a, view).Some?
    ensures var page := Page(RowsOf(h(t), a, view).value, offset, size);
            && Gathered(h, pins, view, offset, page)
            && (|page| < size ==> EndsBy(h, pins, view, offset + |page|))
            && (page != [] ==> offset + |page| <= |RowsOf(h(t), a, view).value|)
  {
    var page := Page(RowsOf(h(t), a, view).value, offset, size);
    forall i | 0 <= i < |page|
      ensures Shown(h, pins, view, offset + i, page[i])
    {
      assert ShownAt(h, pins, view, offset + i, page[i], t, a);
    }
  }

  lemma NoneGathered<T(!new)>(h: History<T>, pins: map<nat, string>, view: View, start: nat)
    ensures Gathered(h, pins, view, start, [])
  {
  }

  lemma ShownSoFar<T(!new)>(h: History<T>, pins: map<nat, string>, view: View, start: nat, out: seq<T>, page: seq<T>)
    requires Gathered(h, pins, view, start, out) && Gathered(h, pins, view, start + |out|, page)
    ensures Gathered(h, pins, view, start, out + page)
  {
    forall i | |out| <= i < |out + page|
      ensures Shown(h, pins, view, start + i, (out + page)[i])
    {
      assert Shown(h, pins, view, start + |out| + (i - |out|), page[i - |out|]);
    }
  }

  lemma PageOfFrozen<T(!new)>(h: History<T>, pins: map<nat, string>, view: View, rows: seq<T>, t: nat, a: string, size: nat, offset: nat)
    requires Frozen(h, pins, view, rows) && Allowed(pins, view, a) && Serve(h(t), a, view, Some(size), offset).Some?
    ensures Serve(h(t), a, view, Some(size), offset).value.0 == Page(rows, offset, size)
  {
    assert RowsOf(h(t), a, view).value == rows;
  }

  lemma Joins<T>(all: seq<T>, out: seq<T>, rest: seq<T>, page: seq<T>, left: seq<T>)
    requires all == out + rest && rest == page + left
    ensures all == (out + page) + left && (left == [] ==> all == out + page)
  {
  }

  lemma PageSplits<T>(rows: seq<T>, offset: nat, size: nat)
    ensures var page := Page(rows, offset, size);
            && From(rows, offset) == page + From(rows, offset + |page|)
            && (|page| < size ==> From(rows, offset + |page|) == [])
  {
  }

  lemma PageJoins<T>(rows: seq<T>, start: nat, out: seq<T>, size: nat)
    requires From(rows, start) == out + From(rows, start + |out|)
    ensures var page := Page(rows, start + |out|, size);
            && From(rows, start) == (out + page) + From(rows, start + |out| + |page|)
            && (|page| < size ==> From(rows, start) == out + page)
  {
    var offset := start + |out|;
    var page := Page(rows, offset, size);
    PageSplits(rows, offset, size);
    Joins(From(rows, start), out, From(rows, offset), page, From(rows, offset + |page|));
  }

  // ---- an unpinned handle that two nodes share

  function Twin(rows: seq<nat>, id: nat, t: nat): Node<nat> {
    if t == 0 then Node(rows, map[], {}) else Node(rows, map[id := rows], {id})
  }

  function Twins(z: seq<nat>, o: seq<nat>, id: nat): History<nat> {
    (t: nat) => map["a" := Twin(z, id, t), "b" := Twin(o, id, t)]
  }

  lemma TwinMoves(rows: seq<nat>, id: nat, t: nat)
    requires t > 0
    ensures NodeMoves(Twin(rows, id, t - 1), Twin(rows, id, t))
  {
  }

  lemma TwinsMove(z: seq<nat>, o: seq<nat>, id: nat)
    ensures Moves(Twins(z, o, id))
  {
    var h := Twins(z, o, id);
    forall t | 0 < t
      ensures WorldMoves(h(t - 1), h(t))
    {
      TwinMoves(z, id, t);
      TwinMoves(o, id, t);
    }
  }

  lemma WholePage(z: seq<nat>)
    ensures Page(z, 0, |z|) == z
  {
  }

  lemma LastRow(o: seq<nat>, n: nat)
    requires |o| == n + 1 && n >= 1
    ensures Page(o, n, n) == [o[n]]
  {
  }

  lemma TwinsShow(z: seq<nat>, o: seq<nat>, id: nat)
    ensures RowsOf(Twins(z, o, id)(1), "a", Snapshot(id)) == Some(z)
    ensures RowsOf(Twins(z, o, id)(1), "b", Snapshot(id)) == Some(o)
    ensures forall t: nat, a :: a in Twins(z, o, id)(t) ==> Twins(z, o, id)(t)[a].live in [z, o]
  {
  }

  /** If two nodes drew the same id and the handle is not pinned, the pages may come from
      both: the rows are then no state's at all. */
  lemma SharedIdMixesStates(z: seq<nat>, o: seq<nat>, id: nat)
    requires |z| == DEFAULT_SEARCH_LIMIT && |o| == |z| + 1 && z[0] != o[0]
    ensures var h := Twins(z, o, id);
            && Moves(h)
            && Serve(h(1), "a", Snapshot(id), None, 0) == Some((z, true))
            && Serve(h(1), "a", Snapshot(id), Some(|z|), 0) == Some((z, false))
            && Serve(h(1), "b", Snapshot(id), Some(|z|), |z|) == Some(([o[|z|]], false))
            && forall t: nat, a :: a in h(t) ==> h(t)[a].live != z + [o[|z|]]
  {
    TwinsMove(z, o, id);
    TwinsShow(z, o, id);
    WholePage(z);
    LastRow(o, |z|);
    assert (z + [o[|z|]])[0] == z[0];
  }

  ghost predicate ShowsOne<T(!new)>(h: History<T>, pins: map<nat, string>, id: nat) {
    exists rows :: Frozen(h, pins, Snapshot(id), rows)
  }

  lemma TwinsShowTwo(pins: map<nat, string>, id: nat)
    requires id !in pins
    ensures Moves(Twins([0], [1], id)) && !ShowsOne(Twins([0], [1], id), pins, id)
  {
    var h, view := Twins([0], [1], id), Snapshot(id);
    TwinsMove([0], [1], id);
    TwinsShow([0], [1], id);
    assert Allowed(pins, view, "a") && Allowed(pins, view, "b");
    assert RowsOf(h(1), "a", view).value != RowsOf(h(1), "b", view).value;
  }

  /** A handle shows one state in every history exactly when it is pinned. */
  lemma ShowsOneIffPinned(pins: map<nat, string>, id: nat)
    ensures (forall h: History<nat> :: Moves(h) ==> ShowsOne(h, pins, id)) <==> id in pins
  {
    if id in pins {
      forall h: History<nat> | Moves(h)
        ensures ShowsOne(h, pins, id)
      {
        var rows := SnapshotIsFrozen(h, pins, id);
      }
    } else {
      TwinsShowTwo(pins, id);
    }
  }
}
