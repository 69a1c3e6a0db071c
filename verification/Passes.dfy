/**
 The writer's loop body (module `Writers`) against the pipeline's actions: one pass of
 the loop is a run of writer actions, and a pass the transition system leaves out changes nothing.
 */
module Passes {
  import opened Batches
  import opened Writers
  import opened Pipeline
  import opened Runs

  /** The reorder buffer as the writer holds it. */
  ghost function BufferOf(c: Config, s: State): map<nat, Msg>
    requires |s.ph| == |c.entries|
  {
    map i: nat | i < |s.ph| && s.ph[i].Buffered? :: MsgOf(c.entries[i])
  }

  /** A quiet desk: nothing at `next`, no batch to close, and nothing held without one. */
  lemma QuietPass(det: bool, d: Desk, buf: map<nat, Msg>, g: nat, walkDone: bool, found: nat)
    requires d.next !in buf && !(walkDone && d.next == found)
    requires if det then !Full(d.pending) && d.pendingBytes == Bytes(d.pending) else d.pending == []
    requires d.pending == [] ==> d.held == 0 && d.heldFp == 0 && d.heldPrepared == 0
    ensures Pass(det, d, buf, g, walkDone, found) == (d, buf, false)
  {
    assert DrainAll(det, d, buf, g) == (d, buf);
    assert Decided(det, d, Waiting(buf, d.next), false) == d;
    assert Settled(d) == d;
  }

  /** A pass with nothing at `next` and entries still to come leaves everything as
      it was: the transition system's writer just waits instead. */
  lemma IdlePass(c: Config, acts: seq<Action>, g: nat)
    requires Run(c, acts).Some?
    requires var s := Run(c, acts).value; s.pc.Top? && AtNext(c, s).None? && !AllIn(s)
    ensures var s := Run(c, acts).value;
            Pass(c.deterministic, s.d, BufferOf(c, s), g, s.walkDone, s.walked) == (s.d, BufferOf(c, s), false)
  {
    var s := Run(c, acts).value;
    QuietTop(c, acts);
    QuietPass(c.deterministic, s.d, BufferOf(c, s), g, s.walkDone, s.walked);
  }

  lemma QuietTop(c: Config, acts: seq<Action>)
    requires Run(c, acts).Some? && Run(c, acts).value.pc.Top?
    ensures var d := Run(c, acts).value.d;
            && (if c.deterministic then !Full(d.pending) && d.pendingBytes == Bytes(d.pending) else d.pending == [])
            && (d.pending == [] ==> d.held == 0 && d.heldFp == 0 && d.heldPrepared == 0)
  {
    Reachable(c, acts);
  }

  lemma DrainTakesOne(c: Config, s: State)
    requires Inv(c, s) && Enabled(c, s, DrainOne)
    ensures var t := Step(c, s, DrainOne);
            && s.d.next in BufferOf(c, s) && BufferOf(c, s)[s.d.next] == AtNext(c, s).value
            && |t.ph| == |c.entries| && BufferOf(c, t) == BufferOf(c, s) - {s.d.next}
  {
  }

  lemma {:induction false} DrainLoop(c: Config, acts: seq<Action>, g: nat, w: bool) returns (all: seq<Action>, last: bool)
    requires Run(c, acts).Some? && Run(c, acts).value.pc == Draining(g, w)
    ensures Run(c, all).Some?
    ensures var s, t := Run(c, acts).value, Run(c, all).value;
            && t.pc == Deciding(last) && t.walkDone == s.walkDone && t.walked == s.walked
            && (t.d, BufferOf(c, t)) == DrainAll(c.deterministic, s.d, BufferOf(c, s), g)
    decreases |c.entries| - Run(c, acts).value.d.next
  {
    Reachable(c, acts);
    var s := Run(c, acts).value;
    if AtNext(c, s).None? || Overflows(c.deterministic, s.d, AtNext(c, s).value) {
      Extend(c, acts, StopDrain);
      all, last := acts + [StopDrain], w;
    } else {
      DrainTakesOne(c, s);
      Extend(c, acts, DrainOne);
      all, last := acts + [DrainOne], true;
      if !AtLimit(c.deterministic, Step(c, s, DrainOne).d, g) {
        all, last := DrainLoop(c, all, g, true);
      }
    }
  }

  lemma DecideAndSettle(c: Config, acts: seq<Action>) returns (all: seq<Action>)
    requires Run(c, acts).Some? && Run(c, acts).value.pc.Deciding?
    ensures Run(c, all).Some?
    ensures var s, t := Run(c, acts).value, Run(c, all).value;
            && t.d == Settled(Decided(c.deterministic, s.d, AtNext(c, s), AllIn(s)))
            && t.ph == s.ph
            && (t.pc == if AllIn(s) && t.d.pending == [] && BufferEmpty(s) then Done else Top)
  {
    Extend(c, acts, Decide);
    var mid := acts + [Decide];
    Extend(c, mid, Settle);
    all := mid + [Settle];
  }

  lemma PassParts(det: bool, d: Desk, buf: map<nat, Msg>, g: nat, walkDone: bool, found: nat, d1: Desk, buf1: map<nat, Msg>, d2: Desk)
    requires (d1, buf1) == DrainAll(det, d, buf, g)
    requires d2 == Settled(Decided(det, d1, Waiting(buf1, d1.next), walkDone && d1.next == found))
    ensures Pass(det, d, buf, g, walkDone, found) == (d2, buf1, walkDone && d1.next == found && d2.pending == [] && buf1 == map[])
  {
  }

  /** One pass of the loop, as the writer's class computes it, is a run of actions. */
  lemma PassIsActions(c: Config, acts: seq<Action>, diskCap: nat) returns (all: seq<Action>)
    requires Run(c, acts).Some? && Enabled(c, Run(c, acts).value, Begin(diskCap))
    ensures Run(c, all).Some?
    ensures var s, t := Run(c, acts).value, Run(c, all).value;
            var g := GroupCap(s.d.board.budget.cap, c.chunkBytes, diskCap);
            (t.d, BufferOf(c, t), t.pc.Done?) == Pass(c.deterministic, s.d, BufferOf(c, s), g, s.walkDone, s.walked)
    ensures Run(c, all).value.pc.Top? || Run(c, all).value.pc.Done?
  {
    var s := Run(c, acts).value;
    var g := GroupCap(s.d.board.budget.cap, c.chunkBytes, diskCap);
    Extend(c, acts, Begin(diskCap));
    var begun := acts + [Begin(diskCap)];
    assert BufferOf(c, Run(c, begun).value) == BufferOf(c, s);
    var mid, _ := DrainLoop(c, begun, g, false);
    all := DecideAndSettle(c, mid);
    var u, t := Run(c, mid).value, Run(c, all).value;
    SameBuffer(c, u);
    assert BufferOf(c, t) == BufferOf(c, u);
    PassParts(c.deterministic, s.d, BufferOf(c, s), g, s.walkDone, s.walked, u.d, BufferOf(c, u), t.d);
  }

  lemma SameBuffer(c: Config, u: State)
    requires |u.ph| == |c.entries|
    ensures Waiting(BufferOf(c, u), u.d.next) == AtNext(c, u)
    ensures BufferOf(c, u) == map[] <==> BufferEmpty(u)
  {
    if BufferOf(c, u) == map[] {
      forall j | 0 <= j < |u.ph|
        ensures !u.ph[j].Buffered?
      {
        assert j !in BufferOf(c, u);
      }
    }
  }
}
