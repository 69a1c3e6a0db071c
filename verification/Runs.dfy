/**
 The theorems about whole runs of the pipeline: conservation, what is committed,
 determinism, freedom from deadlock, termination and the memory bound.
 */
module Runs {
  import opened Basics
  import B = Budget
  import opened Batches
  import opened Options
  import opened Pipeline
  import opened Accounts
  import opened Commits

  /** The state after `acts`, if each was enabled when its turn came. */
  function Run(c: Config, acts: seq<Action>): (r: Option<State>)
    ensures r.Some? ==> |r.value.ph| == |c.entries|
  {
    if acts == [] then Some(Init(c))
    else
      var a := acts[|acts| - 1];
      match Run(c, acts[..|acts| - 1])
      case None => None
      case Some(s) =>
        if Enabled(c, s, a) then
          var t := Step(c, s, a);
          if |t.ph| == |c.entries| then Some(t) else None
        else None
  }

  ghost predicate Inv(c: Config, s: State) {
    && Shape(c, s)
    && Balanced(c, s)
    && Sorted(c, s.d)
    && Parked(c, s)
    && HoldsPending(s)
    && (c.deterministic ==> GreedySoFar(c, s.d))
  }

  lemma InvInit(c: Config)
    ensures Inv(c, Init(c))
  {
    ShapeInit(c);
    BalancedInit(c);
  }

  lemma InvKept(c: Config, s: State, a: Action)
    requires Inv(c, s) && Enabled(c, s, a)
    ensures Inv(c, Step(c, s, a))
  {
    ShapeKept(c, s, a);
    BalancedKept(c, s, a);
    SortedKept(c, s, a);
    ParkedKept(c, s, a);
    HoldsKept(c, s, a);
    if c.deterministic {
      GreedyKept(c, s, a);
    }
  }

  lemma {:induction false} Reachable(c: Config, acts: seq<Action>)
    requires Run(c, acts).Some?
    ensures Inv(c, Run(c, acts).value)
  {
    if acts == [] {
      InvInit(c);
    } else {
      var front := acts[..|acts| - 1];
      Reachable(c, front);
      InvKept(c, Run(c, front).value, acts[|acts| - 1]);
    }
  }

  lemma Extend(c: Config, acts: seq<Action>, a: Action)
    requires Run(c, acts).Some? && Enabled(c, Run(c, acts).value, a)
    ensures Run(c, acts + [a]) == Some(Step(c, Run(c, acts).value, a))
  {
    Reachable(c, acts);
    ShapeKept(c, Run(c, acts).value, a);
    assert (acts + [a])[..|acts|] == acts;
  }

  // ---- conservation

  function SizeOf(e: Entry, p: Phase): nat {
    e.size
  }

  /** At every moment of every run the budget holds the bytes charged and not yet
      given back, plus the scratch out. */
  lemma BudgetIsWhatIsOut(c: Config, acts: seq<Action>)
    requires Run(c, acts).Some?
    ensures var s := Run(c, acts).value;
            s.d.board.budget.used == Total(c.entries, s.ph, Charged) + s.d.held + Total(c.entries, s.ph, ScratchOut)
  {
    Reachable(c, acts);
  }

  /** No `saturating_sub` in a release ever saturates. */
  lemma NoReleaseSaturates(c: Config, acts: seq<Action>, a: Action)
    requires Run(c, acts).Some? && Enabled(c, Run(c, acts).value, a)
    ensures var s := Run(c, acts).value;
            var b, op := s.d.board.budget, LedgerOp(c, s, a);
            && Step(c, s, a).d.board.budget == B.Apply(b, op)
            && (op.Release? ==> op.n <= b.used && B.Apply(b, op).used == b.used - op.n)
            && (op.Unreserve? ==> op.n <= b.scratch <= b.used && B.Apply(b, op).scratch == b.scratch - op.n)
  {
    Reachable(c, acts);
    LedgerStep(c, Run(c, acts).value, a);
  }

  lemma DoneIsEmpty(c: Config, s: State)
    requires Inv(c, s) && s.pc.Done?
    ensures s.d.next == |c.entries| && s.walked == |c.entries|
    ensures forall i :: 0 <= i < |s.ph| ==> s.ph[i].Drained?
    ensures s.d.pending == [] && s.d.held == 0 && s.d.heldFp == 0
  {
    forall i | 0 <= i < |s.ph|
      ensures s.ph[i].Drained?
    {
      assert PhaseAt(c, s, i);
    }
  }

  /** A finished run gave everything back and handled everything it found, whether
      files shrank, grew, were skipped or failed. */
  lemma FinishedRunBalances(c: Config, acts: seq<Action>)
    requires Run(c, acts).Some? && Run(c, acts).value.pc.Done?
    ensures var s := Run(c, acts).value;
            && s.d.board.budget.used == 0 && s.d.board.budget.scratch == 0
            && s.d.board.footprint == 0
            && s.d.board.handled == s.walked == |c.entries|
            && s.d.board.handledBytes == s.foundBytes == Total(c.entries, s.ph, SizeOf)
  {
    Reachable(c, acts);
    var s := Run(c, acts).value;
    DoneIsEmpty(c, s);
    TotalZero(c.entries, s.ph, ScratchOut);
    TotalZero(c.entries, s.ph, Charged);
    TotalZero(c.entries, s.ph, FootprintOut);
    TotalEqual(c.entries, s.ph, Over, SizeOf);
    TotalEqual(c.entries, s.ph, Found, SizeOf);
  }

  /** `prepared_bytes` is raised by what the walk saw and lowered by what was read, so
      it returns to 0 exactly when no prepared file shrank in between. */
  lemma PreparedBytesReturn(c: Config, acts: seq<Action>)
    requires Run(c, acts).Some? && Run(c, acts).value.pc.Done?
    ensures Run(c, acts).value.d.board.preparedBytes == 0
            <==> forall i :: 0 <= i < |c.entries| && c.entries[i].outcome.Prepared? ==> c.entries[i].size <= c.entries[i].outcome.len
  {
    Reachable(c, acts);
    var s := Run(c, acts).value;
    DoneIsEmpty(c, s);
    TotalZero(c.entries, s.ph, PreparedOut);
    TotalZero(c.entries, s.ph, Shrunk);
    if s.d.board.preparedBytes == 0 {
      forall i | 0 <= i < |c.entries| && c.entries[i].outcome.Prepared?
        ensures c.entries[i].size <= c.entries[i].outcome.len
      {
        assert Shrunk(c.entries[i], s.ph[i]) == 0;
      }
    }
  }

  // ---- what is committed

  /** In either mode the batches of a finished run are every prepared file once, in
      walk order, and every other entry is tallied. */
  lemma EveryFileOnceInWalkOrder(c: Config, acts: seq<Action>)
    requires Run(c, acts).Some? && Run(c, acts).value.pc.Done?
    ensures var r := Run(c, acts).value.d.c;
            && Concat(r.batches) == PreparedFiles(c.entries, |c.entries|)
            && r.skipped == SkippedIds(c.entries, |c.entries|)
            && r.failed == FailedIds(c.entries, |c.entries|)
  {
    Reachable(c, acts);
    DoneIsEmpty(c, Run(c, acts).value);
  }

  /** Deterministic mode commits the greedy partition, whatever the interleaving. */
  lemma FixedBatchesAreGreedy(c: Config, acts: seq<Action>)
    requires c.deterministic && Run(c, acts).Some? && Run(c, acts).value.pc.Done?
    ensures Greedy(Run(c, acts).value.d.c.batches, PreparedFiles(c.entries, |c.entries|))
  {
    Reachable(c, acts);
    var s := Run(c, acts).value;
    DoneIsEmpty(c, s);
    assert Segments(s.d) == s.d.c.batches;
  }

  /** The boundaries of fixed batches depend on the lengths of the prepared files alone: not on
      their places in the walk, what the walk saw of them or their footprints, nor on threads,
      memory or arrival order. */
  lemma BoundariesAreOfLengths(c: Config, acts: seq<Action>, c': Config, acts': seq<Action>)
    requires c.deterministic && c'.deterministic
    requires Lengths(PreparedFiles(c.entries, |c.entries|)) == Lengths(PreparedFiles(c'.entries, |c'.entries|))
    requires Run(c, acts).Some? && Run(c, acts).value.pc.Done?
    requires Run(c', acts').Some? && Run(c', acts').value.pc.Done?
    ensures Outline(Run(c, acts).value.d.c.batches) == Outline(Run(c', acts').value.d.c.batches)
  {
    FixedBatchesAreGreedy(c, acts);
    FixedBatchesAreGreedy(c', acts');
    OutlineIsOfLengths(Run(c, acts).value.d.c.batches, PreparedFiles(c.entries, |c.entries|),
                       Run(c', acts').value.d.c.batches, PreparedFiles(c'.entries, |c'.entries|));
  }

  /** Two finished deterministic runs that prepare the same files commit the same
      batches, on any number of threads, any memory budget and any arrival order. */
  lemma FixedBatchesAreDeterministic(c: Config, acts: seq<Action>, c': Config, acts': seq<Action>)
    requires c.deterministic && c'.deterministic
    requires PreparedFiles(c.entries, |c.entries|) == PreparedFiles(c'.entries, |c'.entries|)
    requires Run(c, acts).Some? && Run(c, acts).value.pc.Done?
    requires Run(c', acts').Some? && Run(c', acts').value.pc.Done?
    ensures Run(c, acts).value.d.c.batches == Run(c', acts').value.d.c.batches
  {
    FixedBatchesAreGreedy(c, acts);
    FixedBatchesAreGreedy(c', acts');
    GreedyIsUnique(Run(c, acts).value.d.c.batches, Run(c', acts').value.d.c.batches,
                   PreparedFiles(c.entries, |c.entries|));
  }

  /** At any moment, every fixed batch committed is at most 32 MiB or one file. */
  lemma FixedBatchesAreBounded(c: Config, acts: seq<Action>, k: nat)
    requires c.deterministic && Run(c, acts).Some? && k < |Run(c, acts).value.d.c.batches|
    ensures var b := Run(c, acts).value.d.c.batches[k];
            |b| <= BATCH_FILES && (Bytes(b) <= BATCH_BYTES || |b| == 1)
  {
    Reachable(c, acts);
    var d := Run(c, acts).value.d;
    assert Segments(d)[k] == d.c.batches[k];
    FilledIsBounded(d.c.batches[k]);
  }

  // ---- memory

  predicate Fits(c: Config, m: B.Bounds) {
    && m.slack == c.slack
    && Max(c.cap, 1) <= m.cap
    && forall i :: 0 <= i < |c.entries| ==>
         && c.entries[i].size <= m.item
         && forall k :: 0 <= k < |c.entries[i].scratch| ==> c.entries[i].scratch[k] <= m.scratch
  }

  /** The budget's bounds hold in every state of every run. */
  lemma {:induction false} MemoryIsBounded(c: Config, acts: seq<Action>, m: B.Bounds)
    requires Run(c, acts).Some? && Fits(c, m)
    requires forall k :: 0 <= k < |acts| && acts[k].SetCap? ==> Max(acts[k].cap, 1) <= m.cap
    ensures B.Within(Run(c, acts).value.d.board.budget, m)
  {
    if acts == [] {
    } else {
      var front, a := acts[..|acts| - 1], acts[|acts| - 1];
      MemoryIsBounded(c, front, m);
      Reachable(c, front);
      var s := Run(c, front).value;
      LedgerStep(c, s, a);
      assert m.Allow(LedgerOp(c, s, a));
      B.StepWithin(s.d.board.budget, LedgerOp(c, s, a), m);
    }
  }
}
