/**
 Which symbol a symbol or a token belongs to (spikes/data-model/spike.rs): the stack of open
 symbols kept by `ingest_batch` and `ingest_e`, against the reverse search of `search`.
 */
module Containment {
  import opened Options

  /** The byte range of a symbol. */
  datatype Range = Range(start: nat, end: nat)

  predicate Covers(r: Range, pos: nat) {
    r.start <= pos < r.end
  }

  /** The order symbols are stored in: by start, longer first. */
  predicate InOrder(sy: seq<Range>) {
    forall i, j :: 0 <= i < j < |sy| ==>
      sy[i].start < sy[j].start || (sy[i].start == sy[j].start && sy[i].end >= sy[j].end)
  }

  predicate Rising(ps: seq<nat>) {
    forall i, j :: 0 <= i < j < |ps| ==> ps[i] <= ps[j]
  }

  /** `r` is the last of the first `n` symbols that covers `pos`, if any does. */
  predicate IsLastCover(sy: seq<Range>, n: nat, pos: nat, r: Option<nat>)
    requires n <= |sy|
  {
    && (r.Some? ==> r.value < n && Covers(sy[r.value], pos))
    && forall k :: 0 <= k < n && (r.None? || r.value < k) ==> !Covers(sy[k], pos)
  }

  /** `syms.iter().rev().find(..)` over the first `n` symbols. */
  function LastCover(sy: seq<Range>, n: nat, pos: nat): (r: Option<nat>)
    requires n <= |sy|
    ensures IsLastCover(sy, n, pos, r)
  {
    if n == 0 then None
    else if Covers(sy[n - 1], pos) then Some(n - 1)
    else LastCover(sy, n - 1, pos)
  }

  lemma LastCoverIs(sy: seq<Range>, n: nat, pos: nat, r: Option<nat>)
    requires n <= |sy| && IsLastCover(sy, n, pos, r)
    ensures r == LastCover(sy, n, pos)
  {
  }

  /** The stack holds, in order, every symbol so far that may still cover something
      from `pos` on; it may hold others below those. */
  predicate Open(sy: seq<Range>, n: nat, pos: nat, stack: seq<nat>) {
    && n <= |sy|
    && (forall p :: 0 <= p < |stack| ==> stack[p] < n)
    && (forall p, q :: 0 <= p < q < |stack| ==> stack[p] < stack[q])
    && (forall k :: 0 <= k < n ==> sy[k].start <= pos)
    && (forall k :: 0 <= k < n && sy[k].end > pos ==> k in stack)
  }

  /** Pops every symbol that has ended by `pos`; the top is then the last cover. */
  method Settle(sy: seq<Range>, n: nat, was: nat, pos: nat, stack: seq<nat>) returns (open: seq<nat>, parent: Option<nat>)
    requires Open(sy, n, was, stack) && was <= pos
    ensures Open(sy, n, pos, open)
    ensures IsLastCover(sy, n, pos, parent)
  {
    open := stack;
    while open != [] && sy[open[|open| - 1]].end <= pos
      invariant Open(sy, n, pos, open)
    {
      open := open[..|open| - 1];
    }
    parent := if open == [] then None else Some(open[|open| - 1]);
    forall k | 0 <= k < n && (parent.None? || parent.value < k)
      ensures !Covers(sy[k], pos)
    {
      assert k !in open;
    }
  }

  lemma OpenPush(sy: seq<Range>, n: nat, stack: seq<nat>)
    requires n < |sy| && Open(sy, n, sy[n].start, stack)
    ensures Open(sy, n + 1, sy[n].start, stack + [n])
  {
    assert (stack + [n])[|stack|] == n;
    forall k | 0 <= k < n + 1 && sy[k].end > sy[n].start
      ensures k in stack + [n]
    {
      if k < n {
        assert k in stack;
      }
    }
  }

  predicate SymbolsPlaced(sy: seq<Range>, parents: seq<Option<nat>>) {
    |parents| <= |sy| && forall i :: 0 <= i < |parents| ==> IsLastCover(sy, i, sy[i].start, parents[i])
  }

  predicate TokensPlaced(sy: seq<Range>, toks: seq<nat>, owners: seq<Option<nat>>) {
    |owners| <= |toks| && forall k :: 0 <= k < |owners| ==> IsLastCover(sy, |sy|, toks[k], owners[k])
  }

  lemma SymbolsAre(sy: seq<Range>, parents: seq<Option<nat>>)
    requires SymbolsPlaced(sy, parents) && |parents| == |sy|
    ensures forall i :: 0 <= i < |sy| ==> parents[i] == LastCover(sy, i, sy[i].start)
  {
    forall i | 0 <= i < |sy|
      ensures parents[i] == LastCover(sy, i, sy[i].start)
    {
      LastCoverIs(sy, i, sy[i].start, parents[i]);
    }
  }

  lemma TokensAre(sy: seq<Range>, toks: seq<nat>, owners: seq<Option<nat>>)
    requires TokensPlaced(sy, toks, owners) && |owners| == |toks|
    ensures forall k :: 0 <= k < |toks| ==> owners[k] == LastCover(sy, |sy|, toks[k])
  {
    forall k | 0 <= k < |toks|
      ensures owners[k] == LastCover(sy, |sy|, toks[k])
    {
      LastCoverIs(sy, |sy|, toks[k], owners[k]);
    }
  }

  /** The state of the merge: the stack is open at `pos`, and what was taken is placed. */
  predicate Merging(sy: seq<Range>, toks: seq<nat>, pos: nat, stack: seq<nat>, parents: seq<Option<nat>>, owners: seq<Option<nat>>) {
    && SymbolsPlaced(sy, parents) && TokensPlaced(sy, toks, owners)
    && Open(sy, |parents|, pos, stack)
    && (|parents| < |sy| ==> pos <= sy[|parents|].start) && (|owners| < |toks| ==> pos <= toks[|owners|])
  }

  lemma MergeSymbol(sy: seq<Range>, toks: seq<nat>, pos: nat, was: seq<nat>, stack: seq<nat>, parents: seq<Option<nat>>,
                    owners: seq<Option<nat>>, parent: Option<nat>)
    requires InOrder(sy) && Merging(sy, toks, pos, was, parents, owners) && |parents| < |sy|
    requires |owners| < |toks| ==> sy[|parents|].start <= toks[|owners|]
    requires var at := sy[|parents|].start; Open(sy, |parents|, at, stack) && IsLastCover(sy, |parents|, at, parent)
    ensures Merging(sy, toks, sy[|parents|].start, stack + [|parents|], parents + [parent], owners)
  {
    OpenPush(sy, |parents|, stack);
  }

  /** A token before every symbol still to come. */
  lemma PlaceToken(sy: seq<Range>, n: nat, at: nat, parent: Option<nat>)
    requires n <= |sy| && IsLastCover(sy, n, at, parent) && InOrder(sy) && (n < |sy| ==> at < sy[n].start)
    ensures IsLastCover(sy, |sy|, at, parent)
  {
  }

  lemma MergeToken(sy: seq<Range>, toks: seq<nat>, pos: nat, was: seq<nat>, stack: seq<nat>, parents: seq<Option<nat>>,
                   owners: seq<Option<nat>>, parent: Option<nat>)
    requires InOrder(sy) && Rising(toks) && Merging(sy, toks, pos, was, parents, owners) && |owners| < |toks|
    requires |parents| < |sy| ==> toks[|owners|] < sy[|parents|].start
    requires var at := toks[|owners|]; Open(sy, |parents|, at, stack) && IsLastCover(sy, |parents|, at, parent)
    ensures Merging(sy, toks, toks[|owners|], stack, parents, owners + [parent])
  {
    PlaceToken(sy, |parents|, toks[|owners|], parent);
  }

  /** `ingest_batch`: the stack's parent of every symbol is the last earlier symbol that
      covers its start. */
  method SymbolParents(sy: seq<Range>) returns (parents: seq<Option<nat>>)
    requires InOrder(sy)
    ensures |parents| == |sy|
    ensures forall i :: 0 <= i < |sy| ==> parents[i] == LastCover(sy, i, sy[i].start)
  {
    parents := [];
    var stack: seq<nat>, pos: nat := [], 0;
    for i := 0 to |sy|
      invariant |parents| == i && Merging(sy, [], pos, stack, parents, [])
    {
      var open, parent := Settle(sy, i, pos, sy[i].start, stack);
      MergeSymbol(sy, [], pos, stack, open, parents, [], parent);
      pos, stack, parents := sy[i].start, open + [i], parents + [parent];
    }
    SymbolsAre(sy, parents);
  }

  /** `ingest_e`: symbols and tokens merged by start. The parent of every token is
      the last symbol that covers its start, which is what `search` finds. */
  method MergedParents(sy: seq<Range>, toks: seq<nat>) returns (parents: seq<Option<nat>>, owners: seq<Option<nat>>)
    requires InOrder(sy) && Rising(toks)
    ensures |parents| == |sy| && |owners| == |toks|
    ensures forall i :: 0 <= i < |sy| ==> parents[i] == LastCover(sy, i, sy[i].start)
    ensures forall k :: 0 <= k < |toks| ==> owners[k] == LastCover(sy, |sy|, toks[k])
  {
    parents, owners := [], [];
    var stack: seq<nat>, pos: nat, si, ti := [], 0, 0, 0;
    while si < |sy| || ti < |toks|
      invariant si <= |sy| && ti <= |toks| && |parents| == si && |owners| == ti
      invariant Merging(sy, toks, pos, stack, parents, owners)
      decreases |sy| - si + |toks| - ti
    {
      var take := si < |sy| && (ti >= |toks| || sy[si].start <= toks[ti]);
      var at := if take then sy[si].start else toks[ti];
      var open, parent := Settle(sy, si, pos, at, stack);
      if take {
        MergeSymbol(sy, toks, pos, stack, open, parents, owners, parent);
        stack, parents, si := open + [si], parents + [parent], si + 1;
      } else {
        MergeToken(sy, toks, pos, stack, open, parents, owners, parent);
        stack, owners, ti := open, owners + [parent], ti + 1;
      }
      pos := at;
    }
    SymbolsAre(sy, parents);
    TokensAre(sy, toks, owners);
  }

  predicate Inside(r: Range, s: Range) {
    s.start <= r.start && r.end <= s.end
  }

  /** Wherever a symbol covers a position, the last cover lies inside it. */
  ghost predicate LastIsInnermost(sy: seq<Range>) {
    forall pos: nat, k :: 0 <= k < |sy| && Covers(sy[k], pos) ==>
      LastCover(sy, |sy|, pos).Some? && Inside(sy[LastCover(sy, |sy|, pos).value], sy[k])
  }

  /** `pos` is in two symbols that cross: the later one goes on past the end of the earlier. */
  predicate CrossAt(sy: seq<Range>, i: nat, j: nat, pos: nat) {
    i < j < |sy| && sy[j].start <= pos < sy[i].end < sy[j].end
  }

  /** A symbol after `j` that covers `pos` and ends in time. */
  predicate Shields(sy: seq<Range>, i: nat, j: nat, pos: nat, k: nat) {
    i < j < k < |sy| && Covers(sy[k], pos) && sy[k].end <= sy[i].end
  }

  /** Wherever two symbols cross, a third one that does not reach past the earlier follows. */
  ghost predicate CrossingsAreShielded(sy: seq<Range>) {
    forall i, j, pos: nat :: CrossAt(sy, i, j, pos) ==> exists k :: Shields(sy, i, j, pos, k)
  }

  lemma ShieldedIsInnermost(sy: seq<Range>, pos: nat, k: nat)
    requires InOrder(sy) && CrossingsAreShielded(sy) && k < |sy| && Covers(sy[k], pos)
    ensures var r := LastCover(sy, |sy|, pos); r.Some? && Inside(sy[r.value], sy[k])
  {
    var r := LastCover(sy, |sy|, pos).value;
    assert !CrossAt(sy, k, r, pos) || exists m :: Shields(sy, k, r, pos, m);
  }

  lemma InnermostIsShielded(sy: seq<Range>, i: nat, j: nat, pos: nat)
    requires InOrder(sy) && LastIsInnermost(sy) && CrossAt(sy, i, j, pos)
    ensures exists k :: Shields(sy, i, j, pos, k)
  {
    var r := LastCover(sy, |sy|, pos).value;
    assert Covers(sy[i], pos) && Covers(sy[j], pos);
    assert Shields(sy, i, j, pos, r);
  }

  /** For symbols in stored order, the last cover is the innermost enclosing symbol everywhere
      exactly when every crossing is shielded. */
  lemma LastCoverIsInnermostIff(sy: seq<Range>)
    requires InOrder(sy)
    ensures LastIsInnermost(sy) <==> CrossingsAreShielded(sy)
  {
    if CrossingsAreShielded(sy) {
      forall pos: nat, k | 0 <= k < |sy| && Covers(sy[k], pos)
        ensures LastCover(sy, |sy|, pos).Some? && Inside(sy[LastCover(sy, |sy|, pos).value], sy[k])
      {
        ShieldedIsInnermost(sy, pos, k);
      }
    }
    if LastIsInnermost(sy) {
      forall i, j, pos: nat | CrossAt(sy, i, j, pos)
        ensures exists k :: Shields(sy, i, j, pos, k)
      {
        InnermostIsShielded(sy, i, j, pos);
      }
    }
  }

  /** Two symbols overlap only when the later one is inside the earlier. */
  predicate ProperlyNested(sy: seq<Range>) {
    forall i, j :: 0 <= i < j < |sy| ==> sy[i].end <= sy[j].start || sy[j].end <= sy[i].end
  }

  /** In particular when spans nest properly, where nothing crosses. */
  lemma LastCoverIsInnermost(sy: seq<Range>)
    requires InOrder(sy) && ProperlyNested(sy)
    ensures LastIsInnermost(sy)
  {
    LastCoverIsInnermostIff(sy);
  }

  /** A crossing that nothing shields: the last cover of 4 in [0, 5), [2, 8) reaches past the first. */
  lemma CrossingSpansBreakIt()
    ensures var sy := [Range(0, 5), Range(2, 8)]; InOrder(sy) && CrossAt(sy, 0, 1, 4) && !LastIsInnermost(sy)
  {
    var sy := [Range(0, 5), Range(2, 8)];
    assert Covers(sy[0], 4) && LastCover(sy, 2, 4) == Some(1);
  }

  /** One that is: [0, 5), [2, 8), [2, 5) do not nest, and the last cover is innermost all the same. */
  lemma ShieldedCrossing()
    ensures var sy := [Range(0, 5), Range(2, 8), Range(2, 5)]; InOrder(sy) && !ProperlyNested(sy) && LastIsInnermost(sy)
  {
    var sy := [Range(0, 5), Range(2, 8), Range(2, 5)];
    forall i, j, pos: nat | CrossAt(sy, i, j, pos)
      ensures exists k :: Shields(sy, i, j, pos, k)
    {
      assert Shields(sy, i, j, pos, 2);
    }
    assert sy[0].end > sy[1].start && sy[1].end > sy[0].end;
    LastCoverIsInnermostIff(sy);
  }
}
