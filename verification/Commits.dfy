/**
 What the writer commits, over every run: in either mode every prepared file once, in walk
 order; in deterministic mode the one greedy partition of them.
 */
module Commits {
  import opened Batches
  import opened Options
  import opened Writers
  import opened Pipeline

  function FileOf(es: seq<Entry>, i: nat): File
    requires i < |es| && es[i].outcome.Prepared?
  {
    File(i, es[i].outcome.len, es[i].size, es[i].outcome.fp)
  }

  /** The files prepared among the first `n` entries, in walk order. */
  function PreparedFiles(es: seq<Entry>, n: nat): seq<File>
    requires n <= |es|
  {
    if n == 0 then []
    else PreparedFiles(es, n - 1) + if es[n - 1].outcome.Prepared? then [FileOf(es, n - 1)] else []
  }

  function SkippedIds(es: seq<Entry>, n: nat): seq<nat>
    requires n <= |es|
  {
    if n == 0 then [] else SkippedIds(es, n - 1) + if es[n - 1].outcome.Skipped? then [n - 1] else []
  }

  function FailedIds(es: seq<Entry>, n: nat): seq<nat>
    requires n <= |es|
  {
    if n == 0 then [] else FailedIds(es, n - 1) + if es[n - 1].outcome.Failed? then [n - 1] else []
  }

  /** The next file the writer will take that was prepared. */
  function Upcoming(es: seq<Entry>, n: nat): Option<File>
    requires n <= |es|
    decreases |es| - n
  {
    if n == |es| then None
    else if es[n].outcome.Prepared? then Some(FileOf(es, n))
    else Upcoming(es, n + 1)
  }

  /** Every entry up to `next` is in exactly one of the writer's lists. */
  predicate Sorted(c: Config, d: Desk) {
    && d.next <= |c.entries|
    && Concat(d.c.batches) + d.pending == PreparedFiles(c.entries, d.next)
    && d.c.skipped == SkippedIds(c.entries, d.next)
    && d.c.failed == FailedIds(c.entries, d.next)
    && d.pendingBytes == Bytes(d.pending)
    && (forall k :: 0 <= k < |d.c.batches| ==> d.c.batches[k] != [])
  }

  /** Taking the next outcome, whatever it is. */
  lemma SortedAdvance(c: Config, d: Desk)
    requires Sorted(c, d) && d.next < |c.entries|
    ensures Sorted(c, Advance(d, MsgOf(c.entries[d.next])))
  {
    var e := c.entries[d.next];
    if e.outcome.Prepared? {
      var f := FileOf(c.entries, d.next);
      BytesSnoc(d.pending, f);
      assert Concat(d.c.batches) + (d.pending + [f]) == (Concat(d.c.batches) + d.pending) + [f];
    }
  }

  lemma SortedFlushed(c: Config, d: Desk)
    requires Sorted(c, d) && d.pending != []
    ensures Sorted(c, Flushed(d))
  {
    ConcatSnoc(d.c.batches, d.pending);
  }

  lemma SortedKept(c: Config, s: State, a: Action)
    requires Shape(c, s) && Sorted(c, s.d) && Enabled(c, s, a)
    ensures Sorted(c, Step(c, s, a).d)
  {
    if a.DrainOne? {
      SortedAdvance(c, s.d);
    } else if a.Decide? && s.d.pending != [] {
      SortedFlushed(c, s.d);
    }
  }

  // ---- the writer's program counter

  predicate Parked(c: Config, s: State)
    requires |s.ph| == |c.entries|
  {
    match s.pc
    case Top => (if c.deterministic then !Full(s.d.pending) else s.d.pending == [])
    case Draining(g, worked) =>
      && 1 <= g
      && (c.deterministic ==> !Full(s.d.pending))
      && (!worked ==> AtNext(c, s).Some? || AllIn(s))
    case Deciding(worked) =>
      worked || (if AtNext(c, s).None? then AllIn(s) else Overflows(c.deterministic, s.d, AtNext(c, s).value))
    case Settling(allIn, worked) =>
      && (allIn ==> AllIn(s))
      && (if c.deterministic then !Full(s.d.pending) else s.d.pending == [])
      && (allIn ==> s.d.pending == [])
      && (!worked ==> allIn)
    case Done => AllIn(s) && s.d.pending == []
  }

  /** `held` never outgrows the pending batch, and is given back with it. */
  predicate HoldsPending(s: State) {
    && (!(s.pc.Settling? && s.d.pending == []) ==> s.d.held <= s.d.pendingBytes)
    && (!(s.pc.Settling? && s.d.pending == []) && s.d.pending == [] ==> s.d.heldFp == 0)
  }

  lemma HoldsKept(c: Config, s: State, a: Action)
    requires Shape(c, s) && Sorted(c, s.d) && HoldsPending(s) && Enabled(c, s, a)
    ensures HoldsPending(Step(c, s, a))
  {
    if a.DrainOne? {
      assert Step(c, s, a).d == Advance(s.d, MsgOf(c.entries[s.d.next]));
    }
  }

  /** The buffered result at `next` stays put while other stages move. */
  lemma AtNextStable(c: Config, s: State, a: Action)
    requires Shape(c, s) && Enabled(c, s, a) && !s.pc.Top? && !a.DrainOne?
    ensures |Step(c, s, a).ph| == |s.ph| && AtNext(c, Step(c, s, a)) == AtNext(c, s)
  {
    StepMoves(c, s, a);
    if s.d.next < |s.ph| {
      assert PhaseAt(c, s, s.d.next);
    }
  }

  lemma AllInStable(c: Config, s: State, a: Action)
    requires Shape(c, s) && Enabled(c, s, a) && AllIn(s)
    ensures AllIn(Step(c, s, a))
  {
  }

  lemma ParkedKept(c: Config, s: State, a: Action)
    requires Shape(c, s) && Sorted(c, s.d) && Parked(c, s) && Enabled(c, s, a)
    ensures |Step(c, s, a).ph| == |c.entries| && Parked(c, Step(c, s, a))
  {
    StepMoves(c, s, a);
    if AllIn(s) {
      AllInStable(c, s, a);
    }
    if !s.pc.Top? && !a.DrainOne? {
      AtNextStable(c, s, a);
    }
    if a.DrainOne? {
      ParkedDrain(c, s);
    }
  }

  lemma ParkedDrain(c: Config, s: State)
    requires Shape(c, s) && Sorted(c, s.d) && Parked(c, s) && Enabled(c, s, DrainOne)
    ensures |Step(c, s, DrainOne).ph| == |c.entries| && Parked(c, Step(c, s, DrainOne))
  {
    assert PhaseAt(c, s, s.d.next);
    SortedKept(c, s, DrainOne);
    assert Step(c, s, DrainOne).d == Advance(s.d, MsgOf(c.entries[s.d.next]));
  }

  // ---- the fixed batches

  /** The batches so far, with the open one last. */
  function Segments(d: Desk): seq<seq<File>> {
    d.c.batches + if d.pending == [] then [] else [d.pending]
  }

  predicate GreedySoFar(c: Config, d: Desk)
    requires d.next <= |c.entries|
  {
    && Chained(Segments(d))
    && (d.pending == [] && d.c.batches != [] && Upcoming(c.entries, d.next).Some?
        ==> Closes(d.c.batches[|d.c.batches| - 1], Upcoming(c.entries, d.next).value))
  }

  lemma GreedyDrain(c: Config, s: State)
    requires c.deterministic && Shape(c, s) && Sorted(c, s.d) && Parked(c, s) && GreedySoFar(c, s.d)
    requires Enabled(c, s, DrainOne)
    ensures Step(c, s, DrainOne).d.next <= |c.entries| && GreedySoFar(c, Step(c, s, DrainOne).d)
  {
    var d, e := s.d, c.entries[s.d.next];
    var d' := Advance(d, MsgOf(e));
    assert Step(c, s, DrainOne).d == d';
    if e.outcome.Prepared? {
      var f := FileOf(c.entries, d.next);
      GreedyJoin(d.c.batches, d.pending, f);
      assert Segments(d') == d.c.batches + [d.pending + [f]];
    }
  }

  /** The pending batch takes one more file, or starts with it. */
  lemma GreedyJoin(bs: seq<seq<File>>, pending: seq<File>, f: File)
    requires Chained(bs + if pending == [] then [] else [pending])
    requires pending != [] ==> !Closes(pending, f)
    requires pending == [] && bs != [] ==> Closes(bs[|bs| - 1], f)
    ensures Chained(bs + [pending + [f]])
  {
    var was, now, b := bs + if pending == [] then [] else [pending], bs + [pending + [f]], pending + [f];
    forall k | 0 <= k < |now|
      ensures Filled(now[k])
    {
      if k == |bs| {
        forall j | 0 < j < |b|
          ensures !Closes(b[..j], b[j])
        {
          if j < |pending| {
            assert was[k] == pending;
            assert b[..j] == pending[..j];
          } else {
            assert b[..j] == pending;
          }
        }
      } else {
        assert now[k] == was[k];
      }
    }
    forall k | 0 < k < |now|
      ensures Closes(now[k - 1], now[k][0])
    {
      if k < |bs| || pending != [] {
        assert Closes(was[k - 1], was[k][0]);
      }
    }
  }

  lemma GreedyFlush(c: Config, s: State)
    requires c.deterministic && Shape(c, s) && Sorted(c, s.d) && GreedySoFar(c, s.d)
    requires Enabled(c, s, Decide)
    ensures GreedySoFar(c, Step(c, s, Decide).d)
  {
    var d' := Step(c, s, Decide).d;
    assert Segments(d') == Segments(s.d);
    if d' != s.d && AtNext(c, s).Some? {
      assert s.d.next < |c.entries|;
    }
  }

  lemma GreedyKept(c: Config, s: State, a: Action)
    requires c.deterministic && Shape(c, s) && Sorted(c, s.d) && Parked(c, s) && GreedySoFar(c, s.d)
    requires Enabled(c, s, a)
    ensures Step(c, s, a).d.next <= |c.entries| && GreedySoFar(c, Step(c, s, a).d)
  {
    if a.DrainOne? {
      GreedyDrain(c, s);
    } else if a.Decide? {
      GreedyFlush(c, s);
    } else {
      var d' := Step(c, s, a).d;
      assert Segments(d') == Segments(s.d);
    }
  }
}
