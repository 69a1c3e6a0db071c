/**
 Conservation over every run of the pipeline: what the budget, the footprint and
 the byte counters hold is exactly what is out, and nothing is ever given back twice.
 */
module Accounts {
  import opened Basics
  import B = Budget
  import opened Writers
  import opened Pipeline

  predicate Balanced(c: Config, s: State)
    requires |s.ph| == |c.entries|
  {
    var board := s.d.board;
    && board.budget.scratch == Total(c.entries, s.ph, ScratchOut)
    && board.budget.used == Total(c.entries, s.ph, Charged) + s.d.held + board.budget.scratch
    && board.footprint == Total(c.entries, s.ph, FootprintOut) + s.d.heldFp
    && board.preparedBytes == Total(c.entries, s.ph, PreparedOut) + s.d.heldPrepared + Total(c.entries, s.ph, Shrunk)
    && board.handledBytes + s.d.held == Total(c.entries, s.ph, Over)
    && board.handled + |s.d.pending| == s.d.next
    && s.foundBytes == Total(c.entries, s.ph, Found)
    && s.d.heldPrepared == s.d.held
    && !board.budget.cancelled
  }

  lemma BalancedInit(c: Config)
    ensures Balanced(c, Init(c))
  {
    var es, ph := c.entries, Init(c).ph;
    TotalZero(es, ph, ScratchOut);
    TotalZero(es, ph, Charged);
    TotalZero(es, ph, FootprintOut);
    TotalZero(es, ph, PreparedOut);
    TotalZero(es, ph, Shrunk);
    TotalZero(es, ph, Over);
    TotalZero(es, ph, Found);
  }

  /** What an action does to the budget. */
  function LedgerOp(c: Config, s: State, a: Action): B.Op
    requires |s.ph| == |c.entries| && Enabled(c, s, a)
  {
    match a
    case Admit => B.Acquire(c.entries[s.admitted].size)
    case Reserve(i) => B.Reserve(c.entries[i].scratch[s.ph[i].k], Oldest(s, i))
    case Unreserve(i) => B.Unreserve(c.entries[i].scratch[s.ph[i].k])
    case DrainOne =>
      var e := c.entries[s.d.next];
      B.Release(if e.outcome.Prepared? then e.size - Min(e.outcome.len, e.size) else e.size)
    case Settle => B.Release(if s.d.pending == [] then s.d.held else 0)
    case SetCap(cap) => B.SetCap(cap)
    case _ => B.Release(0)
  }

  lemma LedgerStep(c: Config, s: State, a: Action)
    requires Shape(c, s) && Balanced(c, s) && Enabled(c, s, a)
    ensures Step(c, s, a).d.board.budget == B.Apply(s.d.board.budget, LedgerOp(c, s, a))
    ensures B.Legal(s.d.board.budget, LedgerOp(c, s, a), c.slack)
  {
    var es := c.entries;
    if a.DrainOne? {
      TotalAtLeast(es, s.ph, Charged, s.d.next);
    } else if a.Unreserve? {
      TotalAtLeast(es, s.ph, ScratchOut, a.i);
    }
  }

  /** The seven sums after one entry moves. */
  lemma SumsMove(c: Config, s: State, i: nat, p: Phase)
    requires |s.ph| == |c.entries| && i < |s.ph|
    ensures var es, ph, e, q := c.entries, s.ph[i := p], c.entries[i], s.ph[i];
            && Total(es, ph, ScratchOut) == Total(es, s.ph, ScratchOut) - ScratchOut(e, q) + ScratchOut(e, p)
            && Total(es, ph, Charged) == Total(es, s.ph, Charged) - Charged(e, q) + Charged(e, p)
            && Total(es, ph, FootprintOut) == Total(es, s.ph, FootprintOut) - FootprintOut(e, q) + FootprintOut(e, p)
            && Total(es, ph, PreparedOut) == Total(es, s.ph, PreparedOut) - PreparedOut(e, q) + PreparedOut(e, p)
            && Total(es, ph, Shrunk) == Total(es, s.ph, Shrunk) - Shrunk(e, q) + Shrunk(e, p)
            && Total(es, ph, Over) == Total(es, s.ph, Over) - Over(e, q) + Over(e, p)
            && Total(es, ph, Found) == Total(es, s.ph, Found) - Found(e, q) + Found(e, p)
  {
    var es := c.entries;
    TotalMove(es, s.ph, ScratchOut, i, p);
    TotalMove(es, s.ph, Charged, i, p);
    TotalMove(es, s.ph, FootprintOut, i, p);
    TotalMove(es, s.ph, PreparedOut, i, p);
    TotalMove(es, s.ph, Shrunk, i, p);
    TotalMove(es, s.ph, Over, i, p);
    TotalMove(es, s.ph, Found, i, p);
  }

  /** A drain moves the entry's charge to `held`, to the writer's release, or to both. */
  lemma BalancedDrain(c: Config, s: State)
    requires Shape(c, s) && Balanced(c, s) && Enabled(c, s, DrainOne)
    ensures Balanced(c, Step(c, s, DrainOne))
  {
    LedgerStep(c, s, DrainOne);
    SumsMove(c, s, s.d.next, Drained);
    var e, d, ph := c.entries[s.d.next], s.d, s.ph[s.d.next := Drained];
    var d' := Advance(d, MsgOf(e));
    assert Step(c, s, DrainOne).d == d' && Step(c, s, DrainOne).ph == ph;
    match e.outcome
    case Prepared(len, fp) =>
      assert d'.held == d.held + Min(len, e.size);
    case _ =>
      assert d'.held == d.held;
  }

  lemma BalancedScratch(c: Config, s: State, a: Action)
    requires Shape(c, s) && Balanced(c, s) && Enabled(c, s, a) && (a.Reserve? || a.Unreserve?)
    ensures Balanced(c, Step(c, s, a))
  {
    LedgerStep(c, s, a);
    SumsMove(c, s, a.i, Step(c, s, a).ph[a.i]);
  }

  lemma BalancedMove(c: Config, s: State, a: Action)
    requires Shape(c, s) && Balanced(c, s) && Enabled(c, s, a)
    requires Mover(s, a) < |s.ph| && !a.DrainOne? && !a.Reserve? && !a.Unreserve?
    ensures |Step(c, s, a).ph| == |c.entries| && Balanced(c, Step(c, s, a))
  {
    StepMoves(c, s, a);
    var i := Mover(s, a);
    assert PhaseAt(c, s, i);
    SumsMove(c, s, i, Step(c, s, a).ph[i]);
  }

  lemma BalancedKept(c: Config, s: State, a: Action)
    requires Shape(c, s) && Balanced(c, s) && Enabled(c, s, a)
    ensures |Step(c, s, a).ph| == |c.entries| && Balanced(c, Step(c, s, a))
  {
    if a.DrainOne? {
      BalancedDrain(c, s);
    } else if a.Reserve? || a.Unreserve? {
      BalancedScratch(c, s, a);
    } else if Mover(s, a) < |s.ph| {
      BalancedMove(c, s, a);
    } else {
      StepMoves(c, s, a);
      LedgerStep(c, s, a);
    }
  }
}
