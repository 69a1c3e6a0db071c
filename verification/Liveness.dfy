/**
 The pipeline cannot deadlock and cannot run for ever: in every reachable
 unfinished state some stage can move, whatever the cap is moved to, and every move but
 a cap change lowers a measure.
 */
module Liveness {
  import B = Budget
  import opened Batches
  import opened Options
  import opened Writers
  import opened Pipeline
  import opened Runs

  /** The admission slack deterministic mode needs: all of a batch that is still open. */
  predicate EnoughSlack(c: Config) {
    c.deterministic ==> BATCH_BYTES - 1 <= c.slack
  }

  // ---- some stage can move

  lemma LeastParsing(s: State, i: nat) returns (m: nat)
    requires i < |s.ph| && s.ph[i].Parsing?
    ensures m < |s.ph| && s.ph[m].Parsing? && Oldest(s, m)
  {
    if Oldest(s, i) {
      m := i;
    } else {
      var j :| 0 <= j < |s.ph| && s.ph[j].Parsing? && j < i;
      m := LeastParsing(s, j);
    }
  }

  /** A thread that holds a job can move, or the oldest one can: when every
      parse is waiting for scratch, none is held. */
  lemma BusyMoves(c: Config, s: State) returns (a: Action)
    requires ValidConfig(c) && Inv(c, s) && Total(c.entries, s.ph, Busy) > 0
    ensures !a.SetCap? && Enabled(c, s, a)
  {
    TotalZero(c.entries, s.ph, Busy);
    var i :| 0 <= i < |s.ph| && Busy(c.entries[i], s.ph[i]) != 0;
    assert PhaseAt(c, s, i);
    if s.ph[i].Left? {
      a := Send(i);
    } else if s.ph[i].Taken? {
      a := if c.entries[i].file then Enter(i) else Leave(i);
    } else if j :| 0 <= j < |s.ph| && s.ph[j].Parsing? && s.ph[j].holding {
      assert PhaseAt(c, s, j);
      a := Unreserve(j);
    } else {
      var m := LeastParsing(s, i);
      assert PhaseAt(c, s, m);
      if s.ph[m].k == |c.entries[m].scratch| {
        a := Leave(m);
      } else {
        TotalZero(c.entries, s.ph, ScratchOut);
        a := Reserve(m);
      }
    }
  }

  lemma WriterMoves(c: Config, s: State) returns (a: Action)
    requires Inv(c, s) && !s.pc.Top? && !s.pc.Done?
    ensures !a.SetCap? && Enabled(c, s, a)
  {
    match s.pc
    case Draining(_, _) =>
      a := if AtNext(c, s).None? || Overflows(c.deterministic, s.d, AtNext(c, s).value) then StopDrain else DrainOne;
    case Deciding(_) => a := Decide;
    case _ => a := Settle;
  }

  /** Admission is never stuck behind a batch that cannot close: once the writer has
      everything admitted, a file of any size is let in, under any cap. */
  lemma AdmissionIsOpen(c: Config, s: State, n: nat)
    requires Inv(c, s) && EnoughSlack(c) && s.pc.Top? && s.d.next == s.admitted
    ensures B.Admits(s.d.board.budget, n, c.slack)
  {
    forall i | 0 <= i < |s.ph|
      ensures Charged(c.entries[i], s.ph[i]) == 0 && ScratchOut(c.entries[i], s.ph[i]) == 0
    {
      assert PhaseAt(c, s, i);
    }
    TotalZero(c.entries, s.ph, Charged);
    TotalZero(c.entries, s.ph, ScratchOut);
    assert s.d.board.budget.used == s.d.held <= Bytes(s.d.pending);
  }

  /** No reachable unfinished state is stuck, in either mode and under any cap. */
  lemma NeverStuck(c: Config, s: State) returns (a: Action)
    requires ValidConfig(c) && EnoughSlack(c) && Inv(c, s) && !s.pc.Done?
    ensures !a.SetCap? && Enabled(c, s, a)
  {
    if !s.pc.Top? {
      a := WriterMoves(c, s);
    } else if i :| 0 <= i < |s.ph| && s.ph[i].Sent? {
      a := Receive(i);
    } else if AtNext(c, s).Some? || AllIn(s) {
      a := Begin(0);
    } else if Total(c.entries, s.ph, Busy) > 0 {
      a := BusyMoves(c, s);
    } else if s.taken < s.admitted {
      a := TakeJob;
    } else if s.admitted < s.walked {
      AllTakenAreDrained(c, s);
      AdmissionIsOpen(c, s, c.entries[s.admitted].size);
      a := Admit;
    } else if s.walked < |s.ph| {
      a := Walk;
    } else {
      AllTakenAreDrained(c, s);
      a := FinishWalk;
    }
  }

  lemma AllTakenAreDrained(c: Config, s: State)
    requires Inv(c, s) && AtNext(c, s).None? && Total(c.entries, s.ph, Busy) == 0
    requires forall i :: 0 <= i < |s.ph| ==> !s.ph[i].Sent?
    ensures s.d.next == s.taken
  {
    TotalZero(c.entries, s.ph, Busy);
    if s.d.next < |s.ph| {
      assert PhaseAt(c, s, s.d.next);
      assert Busy(c.entries[s.d.next], s.ph[s.d.next]) == 0;
    }
  }

  // ---- and every move counts

  /** A pass that has worked pays for the next one; one that has not must end the run. */
  function PcRank(pc: Pc): nat {
    match pc
    case Done => 0
    case Settling(_, worked) => if worked then 5 else 1
    case Deciding(worked) => if worked then 6 else 2
    case Draining(_, worked) => if worked then 7 else 3
    case Top => 4
  }

  function Measure(c: Config, s: State): nat
    requires |s.ph| == |c.entries|
  {
    Total(c.entries, s.ph, Ahead) + 5 * |s.d.pending| + (if s.walkDone then 0 else 1) + PcRank(s.pc)
  }

  lemma SettlesToDone(c: Config, s: State)
    requires Inv(c, s) && s.pc.Settling? && !s.pc.worked
    ensures Step(c, s, Settle).pc.Done?
  {
    forall j | 0 <= j < |s.ph|
      ensures !s.ph[j].Buffered?
    {
      assert PhaseAt(c, s, j);
    }
  }

  lemma DecideDescends(c: Config, s: State)
    requires Inv(c, s) && Enabled(c, s, Decide)
    ensures Measure(c, Step(c, s, Decide)) < Measure(c, s)
  {
  }

  lemma MoveDescends(c: Config, s: State, a: Action)
    requires Inv(c, s) && Enabled(c, s, a) && Mover(s, a) < |s.ph| && !a.DrainOne?
    ensures |Step(c, s, a).ph| == |c.entries| && Measure(c, Step(c, s, a)) < Measure(c, s)
  {
    StepMoves(c, s, a);
    var i := Mover(s, a);
    assert PhaseAt(c, s, i);
    TotalMove(c.entries, s.ph, Ahead, i, Step(c, s, a).ph[i]);
    TotalAtLeast(c.entries, s.ph, Ahead, i);
  }

  lemma DrainDescends(c: Config, s: State)
    requires Inv(c, s) && Enabled(c, s, DrainOne)
    ensures Measure(c, Step(c, s, DrainOne)) < Measure(c, s)
  {
    TotalMove(c.entries, s.ph, Ahead, s.d.next, Drained);
    assert |Step(c, s, DrainOne).d.pending| <= |s.d.pending| + 1;
  }

  lemma EveryMoveDescends(c: Config, s: State, a: Action)
    requires Inv(c, s) && Enabled(c, s, a)
    ensures |Step(c, s, a).ph| == |c.entries|
    ensures if a.SetCap? then Measure(c, Step(c, s, a)) == Measure(c, s) else Measure(c, Step(c, s, a)) < Measure(c, s)
  {
    StepMoves(c, s, a);
    if a.DrainOne? {
      DrainDescends(c, s);
    } else if Mover(s, a) < |s.ph| {
      MoveDescends(c, s, a);
    } else if a.Decide? {
      DecideDescends(c, s);
    } else if a.Settle? && !s.pc.worked {
      SettlesToDone(c, s);
    }
  }

  function Moves(acts: seq<Action>): nat {
    if acts == [] then 0
    else Moves(acts[..|acts| - 1]) + if acts[|acts| - 1].SetCap? then 0 else 1
  }

  /** A run makes a bounded number of moves, however often the cap changes. */
  lemma {:induction false} RunsAreFinite(c: Config, acts: seq<Action>)
    requires Run(c, acts).Some?
    ensures Moves(acts) + Measure(c, Run(c, acts).value) <= Measure(c, Init(c))
  {
    if acts == [] {
    } else {
      var front := acts[..|acts| - 1];
      RunsAreFinite(c, front);
      Reachable(c, front);
      EveryMoveDescends(c, Run(c, front).value, acts[|acts| - 1]);
    }
  }

  /** A run with nothing left to do is a finished one. */
  lemma MaximalRunsFinish(c: Config, acts: seq<Action>)
    requires ValidConfig(c) && EnoughSlack(c) && Run(c, acts).Some?
    requires forall a: Action :: Enabled(c, Run(c, acts).value, a) ==> a.SetCap?
    ensures Run(c, acts).value.pc.Done?
  {
    Reachable(c, acts);
    if !Run(c, acts).value.pc.Done? {
      var a := NeverStuck(c, Run(c, acts).value);
    }
  }

  lemma OneMoreMove(c: Config, acts: seq<Action>) returns (a: Action)
    requires ValidConfig(c) && EnoughSlack(c) && Run(c, acts).Some? && !Run(c, acts).value.pc.Done?
    ensures Run(c, acts + [a]).Some?
    ensures Measure(c, Run(c, acts + [a]).value) < Measure(c, Run(c, acts).value)
  {
    Reachable(c, acts);
    var s := Run(c, acts).value;
    a := NeverStuck(c, s);
    EveryMoveDescends(c, s, a);
    Extend(c, acts, a);
  }

  /** From any point of any run there is a way to the end. */
  lemma {:induction false} RunsCanFinish(c: Config, acts: seq<Action>) returns (all: seq<Action>)
    requires ValidConfig(c) && EnoughSlack(c) && Run(c, acts).Some?
    ensures acts <= all && Run(c, all).Some? && Run(c, all).value.pc.Done?
    decreases Measure(c, Run(c, acts).value)
  {
    all := acts;
    if !Run(c, acts).value.pc.Done? {
      var a := OneMoreMove(c, acts);
      all := RunsCanFinish(c, acts + [a]);
    }
  }

  /** The slack `run_pipeline` passes is enough. */
  lemma SourceSlackIsEnough(c: Config)
    requires c.slack == SlackOf(c.deterministic)
    ensures EnoughSlack(c)
  {
  }

  // ---- one byte less of slack is not enough

  /** A batch one byte short of full, and a file that waits behind it. */
  function TightConfig(slack: nat): Config {
    Config([Entry(true, BATCH_BYTES - 1, [], Prepared(BATCH_BYTES - 1, 0)), Entry(true, 2, [], Prepared(2, 0))],
           true, slack, 1, BATCH_BYTES, BATCH_BYTES)
  }

  function TightState(p: Phase, taken: nat, pc: Pc, d: Desk): State {
    State([p, Walked], 2, BATCH_BYTES + 1, true, 1, taken, pc, d)
  }

  function TightDesk(b: B.Ledger, prepared: int): Desk {
    Desk(0, [], 0, 0, 0, 0, Collected([], [], [], false), Board(b, 0, 0, 0, prepared))
  }

  function TightLedger(): B.Ledger {
    B.Acquired(B.Open(BATCH_BYTES), BATCH_BYTES - 1)
  }

  lemma TightWalk(slack: nat) returns (acts: seq<Action>)
    ensures Run(TightConfig(slack), acts)
            == Some(State([Walked, Walked], 2, BATCH_BYTES + 1, true, 0, 0, Top, TightDesk(B.Open(BATCH_BYTES), 0)))
  {
    var c := TightConfig(slack);
    assert Init(c).ph == [Unwalked, Unwalked];
    Extend(c, [], Walk);
    Extend(c, [] + [Walk], Walk);
    Extend(c, [] + [Walk] + [Walk], FinishWalk);
    acts := [] + [Walk] + [Walk] + [FinishWalk];
    assert Run(c, acts).value.ph == [Walked, Walked];
  }

  lemma TightAdmit(slack: nat) returns (acts: seq<Action>)
    ensures Run(TightConfig(slack), acts) == Some(TightState(Taken, 1, Top, TightDesk(TightLedger(), 0)))
  {
    var c := TightConfig(slack);
    acts := TightWalk(slack);
    Extend(c, acts, Admit);
    acts := acts + [Admit];
    assert Run(c, acts).value.ph == [Queued, Walked];
    TotalZero(c.entries, [Queued, Walked], Busy);
    Extend(c, acts, TakeJob);
    acts := acts + [TakeJob];
    assert Run(c, acts).value.ph == [Taken, Walked];
  }

  lemma TightParse(slack: nat) returns (acts: seq<Action>)
    ensures Run(TightConfig(slack), acts) == Some(TightState(Left, 1, Top, TightDesk(TightLedger(), BATCH_BYTES - 1)))
  {
    var c := TightConfig(slack);
    acts := TightAdmit(slack);
    Extend(c, acts, Enter(0));
    acts := acts + [Enter(0)];
    assert Run(c, acts).value.ph == [Parsing(0, false), Walked];
    Extend(c, acts, Leave(0));
    acts := acts + [Leave(0)];
    assert Run(c, acts).value.ph == [Left, Walked];
  }

  lemma TightSend(slack: nat) returns (acts: seq<Action>)
    ensures Run(TightConfig(slack), acts) == Some(TightState(Buffered, 1, Top, TightDesk(TightLedger(), BATCH_BYTES - 1)))
  {
    var c := TightConfig(slack);
    acts := TightParse(slack);
    Extend(c, acts, Send(0));
    acts := acts + [Send(0)];
    Extend(c, acts, Receive(0));
    acts := acts + [Receive(0)];
    assert Run(c, acts).value.ph == [Buffered, Walked];
  }

  function TightHeld(): Desk {
    Desk(1, [File(0, BATCH_BYTES - 1, BATCH_BYTES - 1, 0)], BATCH_BYTES - 1, BATCH_BYTES - 1, 0, BATCH_BYTES - 1,
         Collected([], [], [], false), Board(TightLedger(), 0, 0, 0, BATCH_BYTES - 1))
  }

  function TightBuffered(cap: nat): State {
    TightState(Buffered, 1, Draining(cap, false), TightDesk(TightLedger(), BATCH_BYTES - 1))
  }

  lemma TightBegin(slack: nat) returns (acts: seq<Action>, cap: nat)
    ensures Run(TightConfig(slack), acts) == Some(TightBuffered(cap))
  {
    var c := TightConfig(slack);
    acts := TightSend(slack);
    Extend(c, acts, Begin(0));
    acts := acts + [Begin(0)];
    cap := Run(c, acts).value.pc.groupCap;
  }

  lemma TightTakes(slack: nat, cap: nat)
    ensures var c, s := TightConfig(slack), TightBuffered(cap);
            Enabled(c, s, DrainOne) && Step(c, s, DrainOne) == TightState(Drained, 1, Draining(cap, true), TightHeld())
  {
    var c, s := TightConfig(slack), TightBuffered(cap);
    assert s.ph[0 := Drained] == [Drained, Walked];
    assert Step(c, s, DrainOne).d.pending == TightHeld().pending;
  }

  lemma TightTake(slack: nat) returns (acts: seq<Action>, cap: nat)
    ensures Run(TightConfig(slack), acts) == Some(TightState(Drained, 1, Draining(cap, true), TightHeld()))
  {
    hide Step, Enabled, TightBuffered, TightState, TightHeld, TightConfig;
    acts, cap := TightBegin(slack);
    TightTakes(slack, cap);
    Extend(TightConfig(slack), acts, DrainOne);
    acts := acts + [DrainOne];
  }

  lemma TightDrain(slack: nat) returns (acts: seq<Action>)
    ensures Run(TightConfig(slack), acts) == Some(TightState(Drained, 1, Deciding(true), TightHeld()))
  {
    var cap;
    acts, cap := TightTake(slack);
    Extend(TightConfig(slack), acts, StopDrain);
    acts := acts + [StopDrain];
  }

  lemma TightSettle(slack: nat) returns (acts: seq<Action>)
    ensures Run(TightConfig(slack), acts) == Some(TightState(Drained, 1, Top, TightHeld()))
  {
    var c := TightConfig(slack);
    acts := TightDrain(slack);
    var s := Run(c, acts).value;
    assert s.d.pending == [] + [s.d.pending[0]];
    BytesSnoc([], s.d.pending[0]);
    TightStaysOpen(c, s);
    Extend(c, acts, Decide);
    Extend(c, acts + [Decide], Settle);
    acts := acts + [Decide] + [Settle];
  }

  lemma TightStaysOpen(c: Config, s: State)
    requires |s.ph| == |c.entries| && s.pc == Deciding(true) && AtNext(c, s).None? && !AllIn(s)
    requires c.deterministic && !Full(s.d.pending) && s.d.pendingBytes == Bytes(s.d.pending) && s.d.pending != []
    ensures Step(c, s, Decide) == s.(pc := Settling(false, true))
    ensures Step(c, Step(c, s, Decide), Settle) == s.(pc := Top)
  {
  }

  lemma TightIsStuck(c: Config, s: State, a: Action)
    requires c.slack < BATCH_BYTES - 1 && |c.entries| == 2 && c.entries[1].size == 2
    requires s.ph == [Drained, Walked] && s.pc.Top? && s.admitted == s.taken == 1 && s.walked == 2 && s.walkDone
    requires s.d.next == 1 && s.d.board.budget.used == BATCH_BYTES - 1 && s.d.board.budget.cap == BATCH_BYTES
    requires !a.SetCap?
    ensures !Enabled(c, s, a)
  {
  }

  /** With less slack a deterministic run can end stuck: the open batch fills all but
      one byte of the budget and the file that would close it is never admitted. */
  lemma LessSlackGetsStuck(slack: nat) returns (acts: seq<Action>)
    requires slack < BATCH_BYTES - 1
    ensures ValidConfig(TightConfig(slack)) && Run(TightConfig(slack), acts).Some?
    ensures !Run(TightConfig(slack), acts).value.pc.Done?
    ensures forall a: Action :: Enabled(TightConfig(slack), Run(TightConfig(slack), acts).value, a) ==> a.SetCap?
  {
    acts := TightSettle(slack);
    forall a: Action | !a.SetCap?
      ensures !Enabled(TightConfig(slack), TightState(Drained, 1, Top, TightHeld()), a)
    {
      TightIsStuck(TightConfig(slack), TightState(Drained, 1, Top, TightHeld()), a);
    }
  }
}
