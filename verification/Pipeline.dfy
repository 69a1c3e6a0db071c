/**
 The ingest pipeline (crates/graph-cli/src/lib.rs, `run_pipeline`) as a
 transition system: walk, admission against the byte budget, a pool of parse threads and
 the writer of module `Writers`. Every shared operation is one action, so a run
 is an interleaving of the stages chosen by nobody in particular.

 What the run will meet (each entry's size at walk time, its scratch requests and its
 outcome) is the configuration; the order in which things happen is the run.
 Disk stops, database errors and cancellation end a run early and are not actions here.
 */
module Pipeline {
  import opened Basics
  import opened Budget
  import opened Batches
  import opened Options
  import opened Writers

  /** One walk entry. `scratch` are the reservations its parse makes, one at a time. */
  datatype Entry = Entry(file: bool, size: nat, scratch: seq<nat>, outcome: Outcome)

  datatype Config = Config(
    entries: seq<Entry>, deterministic: bool, slack: nat, threads: nat, chunkBytes: nat, cap: nat)

  predicate ValidEntry(e: Entry) {
    && (!e.file ==> e.size == 0 && e.scratch == [] && e.outcome.Skipped?)
    && (forall k :: 0 <= k < |e.scratch| ==> 0 < e.scratch[k])
  }

  predicate ValidConfig(c: Config) {
    && 1 <= c.threads
    && (forall i :: 0 <= i < |c.entries| ==> ValidEntry(c.entries[i]))
  }

  /** The slack `run_pipeline` passes to admission. */
  function SlackOf(deterministic: bool): nat {
    if deterministic then BATCH_BYTES else 0
  }

  /** Where an entry is. `Parsing` is exactly being in `inflight`: `k`
      reservations are over, and `holding` says the k-th is out. `Left` has gone
      from `inflight` but its result is not sent yet. */
  datatype Phase =
    | Unwalked | Walked | Queued | Taken
    | Parsing(k: nat, holding: bool)
    | Left | Sent | Buffered | Drained

  /** Where the writer is in its loop. `worked` says that this pass has drained
      or flushed something. */
  datatype Pc =
    | Top
    | Draining(groupCap: nat, worked: bool)
    | Deciding(worked: bool)
    | Settling(allIn: bool, worked: bool)
    | Done

  datatype State = State(
    ph: seq<Phase>, walked: nat, foundBytes: nat, walkDone: bool, admitted: nat, taken: nat, pc: Pc, d: Desk)

  datatype Action =
    | Walk | FinishWalk | Admit | TakeJob
    | Enter(i: nat) | Reserve(i: nat) | Unreserve(i: nat) | Leave(i: nat) | Send(i: nat)
    | Receive(i: nat) | Begin(diskCap: nat) | DrainOne | StopDrain | Decide | Settle
    | SetCap(cap: nat)

  function Init(c: Config): State {
    State(seq(|c.entries|, i => Unwalked), 0, 0, false, 0, 0, Top,
          Desk(0, [], 0, 0, 0, 0, Collected([], [], [], false), Board(Open(c.cap), 0, 0, 0, 0)))
  }

  // ---- sums over the entries

  function Total(es: seq<Entry>, ph: seq<Phase>, w: (Entry, Phase) -> nat): nat
    requires |es| == |ph|
  {
    if es == [] then 0
    else Total(es[..|es| - 1], ph[..|ph| - 1], w) + w(es[|es| - 1], ph[|ph| - 1])
  }

  lemma {:induction false} TotalMove(es: seq<Entry>, ph: seq<Phase>, w: (Entry, Phase) -> nat, i: nat, p: Phase)
    requires |es| == |ph| && i < |ph|
    ensures Total(es, ph[i := p], w) == Total(es, ph, w) - w(es[i], ph[i]) + w(es[i], p)
  {
    var n := |es| - 1;
    if i == n {
      assert ph[i := p][..n] == ph[..n];
    } else {
      assert ph[i := p][..n] == ph[..n][i := p];
      TotalMove(es[..n], ph[..n], w, i, p);
    }
  }

  lemma {:induction false} TotalEqual(es: seq<Entry>, ph: seq<Phase>, w: (Entry, Phase) -> nat, v: (Entry, Phase) -> nat)
    requires |es| == |ph|
    requires forall i :: 0 <= i < |es| ==> w(es[i], ph[i]) == v(es[i], ph[i])
    ensures Total(es, ph, w) == Total(es, ph, v)
  {
    if es == [] {
    } else {
      TotalEqual(es[..|es| - 1], ph[..|ph| - 1], w, v);
    }
  }

  lemma {:induction false} TotalZero(es: seq<Entry>, ph: seq<Phase>, w: (Entry, Phase) -> nat)
    requires |es| == |ph|
    ensures Total(es, ph, w) == 0 <==> forall i :: 0 <= i < |es| ==> w(es[i], ph[i]) == 0
  {
    if es == [] {
    } else {
      TotalZero(es[..|es| - 1], ph[..|ph| - 1], w);
    }
  }

  lemma {:induction false} TotalAtLeast(es: seq<Entry>, ph: seq<Phase>, w: (Entry, Phase) -> nat, i: nat)
    requires |es| == |ph| && i < |ph|
    ensures w(es[i], ph[i]) <= Total(es, ph, w)
  {
    if i < |es| - 1 {
      TotalAtLeast(es[..|es| - 1], ph[..|ph| - 1], w, i);
    }
  }

  predicate InHand(p: Phase) {
    p.Queued? || p.Taken? || p.Parsing? || p.Left? || p.Sent? || p.Buffered?
  }

  predicate Parsed(p: Phase) {
    p.Left? || p.Sent? || p.Buffered?
  }

  /** Bytes admission charged and the writer has not taken over. */
  function Charged(e: Entry, p: Phase): nat {
    if InHand(p) then e.size else 0
  }

  function ScratchOut(e: Entry, p: Phase): nat {
    if p.Parsing? && p.holding && p.k < |e.scratch| then e.scratch[p.k] else 0
  }

  function FootprintOut(e: Entry, p: Phase): nat {
    if Parsed(p) then FootprintOf(e.outcome) else 0
  }

  function PreparedOut(e: Entry, p: Phase): nat {
    if Parsed(p) && e.outcome.Prepared? then e.size else 0
  }

  function Found(e: Entry, p: Phase): nat {
    if p.Unwalked? then 0 else e.size
  }

  function Over(e: Entry, p: Phase): nat {
    if p.Drained? then e.size else 0
  }

  /** What a drained file had lost between the walk and the read. */
  function Shrunk(e: Entry, p: Phase): nat {
    if p.Drained? && e.outcome.Prepared? then e.size - Min(e.outcome.len, e.size) else 0
  }

  function Busy(e: Entry, p: Phase): nat {
    if p.Taken? || p.Parsing? || p.Left? then 1 else 0
  }

  /** Actions an entry still needs, its drain paying for the pass that makes it. */
  function Ahead(e: Entry, p: Phase): nat {
    match p
    case Drained => 0
    case Buffered => 10
    case Sent => 11
    case Left => 12
    case Parsing(k, holding) => 13 + 2 * SatSub(|e.scratch|, k) - (if holding && k < |e.scratch| then 1 else 0)
    case Taken => 14 + 2 * |e.scratch|
    case Queued => 15 + 2 * |e.scratch|
    case Walked => 16 + 2 * |e.scratch|
    case Unwalked => 17 + 2 * |e.scratch|
  }

  // ---- steps

  function MsgOf(e: Entry): Msg {
    Msg(e.outcome, e.size)
  }

  /** The result the reorder buffer holds at `next`, if any. */
  function AtNext(c: Config, s: State): Option<Msg>
    requires |s.ph| == |c.entries|
  {
    if s.d.next < |s.ph| && s.ph[s.d.next].Buffered? then Some(MsgOf(c.entries[s.d.next])) else None
  }

  predicate AllIn(s: State) {
    s.walkDone && s.d.next == s.walked
  }

  /** No entry older than `i` is being parsed. */
  predicate Oldest(s: State, i: nat) {
    forall j :: 0 <= j < |s.ph| && s.ph[j].Parsing? ==> i <= j
  }

  predicate BufferEmpty(s: State) {
    forall j :: 0 <= j < |s.ph| ==> !s.ph[j].Buffered?
  }

  predicate Enabled(c: Config, s: State, a: Action)
    requires |s.ph| == |c.entries|
  {
    match a
    case Walk => s.walked < |s.ph|
    case FinishWalk => s.walked == |s.ph| && !s.walkDone
    case Admit => s.admitted < s.walked && s.admitted < |s.ph| && Admits(s.d.board.budget, c.entries[s.admitted].size, c.slack)
    case TakeJob => s.taken < s.admitted && s.taken < |s.ph| && Total(c.entries, s.ph, Busy) < c.threads
    case Enter(i) => i < |s.ph| && s.ph[i].Taken? && c.entries[i].file
    case Reserve(i) =>
      && i < |s.ph| && s.ph[i].Parsing? && !s.ph[i].holding && s.ph[i].k < |c.entries[i].scratch|
      && Grants(s.d.board.budget, c.entries[i].scratch[s.ph[i].k], Oldest(s, i))
    case Unreserve(i) => i < |s.ph| && s.ph[i].Parsing? && s.ph[i].holding && s.ph[i].k < |c.entries[i].scratch|
    case Leave(i) =>
      && i < |s.ph|
      && if c.entries[i].file then s.ph[i] == Parsing(|c.entries[i].scratch|, false) else s.ph[i].Taken?
    case Send(i) => i < |s.ph| && s.ph[i].Left?
    case Receive(i) => i < |s.ph| && s.ph[i].Sent? && s.pc.Top?
    // A pass that would find nothing is the writer waiting (see `IdlePass`).
    case Begin(_) => s.pc.Top? && (AtNext(c, s).Some? || AllIn(s))
    case DrainOne => s.pc.Draining? && AtNext(c, s).Some? && !Overflows(c.deterministic, s.d, AtNext(c, s).value)
    case StopDrain => s.pc.Draining? && (AtNext(c, s).None? || Overflows(c.deterministic, s.d, AtNext(c, s).value))
    case Decide => s.pc.Deciding?
    case Settle => s.pc.Settling?
    case SetCap(_) => true
  }

  function WithBudget(d: Desk, b: Ledger): Desk {
    d.(board := d.board.(budget := b))
  }

  function Step(c: Config, s: State, a: Action): State
    requires |s.ph| == |c.entries| && Enabled(c, s, a)
  {
    var b := s.d.board.budget;
    match a
    case Walk =>
      s.(ph := s.ph[s.walked := Walked], walked := s.walked + 1,
         foundBytes := s.foundBytes + c.entries[s.walked].size)
    case FinishWalk => s.(walkDone := true)
    case Admit =>
      s.(ph := s.ph[s.admitted := Queued], admitted := s.admitted + 1,
         d := WithBudget(s.d, Acquired(b, c.entries[s.admitted].size)))
    case TakeJob => s.(ph := s.ph[s.taken := Taken], taken := s.taken + 1)
    case Enter(i) => s.(ph := s.ph[i := Parsing(0, false)])
    case Reserve(i) =>
      s.(ph := s.ph[i := Parsing(s.ph[i].k, true)],
         d := WithBudget(s.d, Reserved(b, c.entries[i].scratch[s.ph[i].k])))
    case Unreserve(i) =>
      s.(ph := s.ph[i := Parsing(s.ph[i].k + 1, false)],
         d := WithBudget(s.d, Unreserved(b, c.entries[i].scratch[s.ph[i].k])))
    case Leave(i) =>
      var o := c.entries[i].outcome;
      s.(ph := s.ph[i := Left],
         d := s.d.(board := s.d.board.(
           footprint := s.d.board.footprint + FootprintOf(o),
           preparedBytes := s.d.board.preparedBytes + (if o.Prepared? then c.entries[i].size else 0))))
    case Send(i) => s.(ph := s.ph[i := Sent])
    case Receive(i) => s.(ph := s.ph[i := Buffered])
    case Begin(diskCap) => s.(pc := Draining(GroupCap(b.cap, c.chunkBytes, diskCap), false))
    case DrainOne =>
      var d := Advance(s.d, AtNext(c, s).value);
      s.(ph := s.ph[s.d.next := Drained], d := d,
         pc := if AtLimit(c.deterministic, d, s.pc.groupCap) then Deciding(true) else Draining(s.pc.groupCap, true))
    case StopDrain => s.(pc := Deciding(s.pc.worked))
    case Decide =>
      var d := Decided(c.deterministic, s.d, AtNext(c, s), AllIn(s));
      s.(d := d, pc := Settling(AllIn(s), s.pc.worked || d != s.d))
    case Settle =>
      var d := Settled(s.d);
      s.(d := d, pc := if s.pc.allIn && d.pending == [] && BufferEmpty(s) then Done else Top)
    case SetCap(cap) => s.(d := WithBudget(s.d, Recapped(b, cap)))
  }

  // ---- what every step keeps

  predicate PhaseAt(c: Config, s: State, i: nat)
    requires i < |s.ph| == |c.entries|
  {
    var p := s.ph[i];
    if i < s.d.next then p.Drained?
    else if i < s.taken then
      && (p.Taken? || p.Parsing? || Parsed(p))
      && (p.Parsing? ==> c.entries[i].file && p.k <= |c.entries[i].scratch| && (p.holding ==> p.k < |c.entries[i].scratch|))
    else if i < s.admitted then p.Queued?
    else if i < s.walked then p.Walked?
    else p.Unwalked?
  }

  predicate Shape(c: Config, s: State) {
    && |s.ph| == |c.entries|
    && s.d.next <= s.taken <= s.admitted <= s.walked <= |s.ph|
    && (s.walkDone ==> s.walked == |s.ph|)
    && (forall i :: 0 <= i < |s.ph| ==> PhaseAt(c, s, i))
    && Total(c.entries, s.ph, Busy) <= c.threads
  }

  lemma ShapeInit(c: Config)
    ensures Shape(c, Init(c))
  {
    TotalZero(c.entries, Init(c).ph, Busy);
  }

  /** The one entry an action moves, if it moves one. */
  function Mover(s: State, a: Action): nat {
    match a
    case Walk => s.walked
    case Admit => s.admitted
    case TakeJob => s.taken
    case Enter(i) => i
    case Reserve(i) => i
    case Unreserve(i) => i
    case Leave(i) => i
    case Send(i) => i
    case Receive(i) => i
    case DrainOne => s.d.next
    case _ => |s.ph|
  }

  lemma StepMoves(c: Config, s: State, a: Action)
    requires Shape(c, s) && Enabled(c, s, a)
    ensures var t, i := Step(c, s, a), Mover(s, a);
            |t.ph| == |s.ph| && i <= |s.ph| && t.ph == if i < |s.ph| then s.ph[i := t.ph[i]] else s.ph
  {
  }

  lemma PhaseKept(c: Config, s: State, a: Action, j: nat)
    requires Shape(c, s) && Enabled(c, s, a) && j < |s.ph|
    ensures |Step(c, s, a).ph| == |s.ph| && PhaseAt(c, Step(c, s, a), j)
  {
    assert PhaseAt(c, s, j);
    var i := Mover(s, a);
    if i < |s.ph| {
      assert PhaseAt(c, s, i);
    }
    match a
    case Walk =>
    case Admit =>
    case TakeJob =>
    case Enter(_) =>
    case Reserve(_) =>
    case Unreserve(_) =>
    case Leave(_) =>
    case Send(_) =>
    case Receive(_) =>
    case DrainOne =>
    case _ =>
  }

  lemma BusyKept(c: Config, s: State, a: Action)
    requires Shape(c, s) && Enabled(c, s, a)
    ensures |Step(c, s, a).ph| == |s.ph| && Total(c.entries, Step(c, s, a).ph, Busy) <= c.threads
  {
    StepMoves(c, s, a);
    var i := Mover(s, a);
    if i < |s.ph| {
      TotalMove(c.entries, s.ph, Busy, i, Step(c, s, a).ph[i]);
      assert PhaseAt(c, s, i);
    }
  }

  lemma ShapeKept(c: Config, s: State, a: Action)
    requires Shape(c, s) && Enabled(c, s, a)
    ensures Shape(c, Step(c, s, a))
  {
    var t := Step(c, s, a);
    StepMoves(c, s, a);
    BusyKept(c, s, a);
    forall j | 0 <= j < |t.ph|
      ensures PhaseAt(c, t, j)
    {
      PhaseKept(c, s, a, j);
    }
    OrderKept(c, s, a);
  }

  lemma OrderKept(c: Config, s: State, a: Action)
    requires Shape(c, s) && Enabled(c, s, a)
    ensures var t := Step(c, s, a);
            t.d.next <= t.taken <= t.admitted <= t.walked <= |s.ph| && (t.walkDone ==> t.walked == |s.ph|)
  {
    if a.DrainOne? {
      assert PhaseAt(c, s, s.d.next);
    }
  }
}
