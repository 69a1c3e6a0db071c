/**
 The single writer (crates/graph-cli/src/lib.rs, `commit_all`): outcomes arrive
 in any order, are taken in walk order, and are committed in batches. A flush is
 the batch leaving for the store.
 */
module Writers {
  import opened Basics
  import opened Budget
  import opened Batches
  import opened Options

  /** What a parse thread made of one walk entry. */
  datatype Outcome =
    | Prepared(len: nat, fp: nat)
    | Skipped(unreadable: bool)
    | Failed

  /** One result, with the bytes admission charged for the entry. */
  datatype Msg = Msg(outcome: Outcome, size: nat)

  /** What the run collects: the batches committed and the entries left out. */
  datatype Collected = Collected(batches: seq<seq<File>>, skipped: seq<nat>, failed: seq<nat>, walkErrors: bool)

  /** The shared counters. */
  datatype Board = Board(budget: Ledger, handled: nat, handledBytes: nat, footprint: int, preparedBytes: int)

  /** The writer's own variables and the shared counters it moves. */
  datatype Desk = Desk(
    next: nat,
    pending: seq<File>, pendingBytes: nat,
    held: nat, heldFp: nat, heldPrepared: nat,
    c: Collected, board: Board)

  function FootprintOf(o: Outcome): nat {
    if o.Prepared? then o.fp else 0
  }

  /** The source bytes one group commit may take. */
  function GroupCap(cap: nat, chunkBytes: nat, diskCap: nat): (g: nat)
    ensures 1 <= g
  {
    Max(Min(Min(cap / 2, chunkBytes * 8), diskCap), 1)
  }

  /** The file at hand closes the fixed batch before joining it. */
  predicate Overflows(det: bool, d: Desk, m: Msg) {
    det && d.pending != [] && m.outcome.Prepared? && d.pendingBytes + m.outcome.len > BATCH_BYTES
  }

  predicate AtLimit(det: bool, d: Desk, groupCap: nat) {
    if det then |d.pending| >= BATCH_FILES || d.pendingBytes >= BATCH_BYTES
    else d.pendingBytes >= groupCap
  }

  /** The bytes of one entry are done with: given back and counted as handled. */
  function Freed(b: Board, n: nat): Board {
    b.(budget := Released(b.budget, n), handledBytes := b.handledBytes + n)
  }

  /** Take the outcome at `next`. A skipped or failed entry gives its bytes back at
      once; a prepared one holds what was read, at most what admission charged. */
  function Advance(d: Desk, m: Msg): Desk {
    match m.outcome
    case Skipped(unreadable) =>
      d.(next := d.next + 1,
         c := d.c.(skipped := d.c.skipped + [d.next], walkErrors := d.c.walkErrors || unreadable),
         board := Freed(d.board, m.size).(handled := d.board.handled + 1))
    case Failed =>
      d.(next := d.next + 1,
         c := d.c.(failed := d.c.failed + [d.next]),
         board := Freed(d.board, m.size).(handled := d.board.handled + 1))
    case Prepared(len, fp) =>
      var kept := Min(len, m.size);
      d.(next := d.next + 1,
         board := if m.size > kept then Freed(d.board, m.size - kept) else d.board,
         held := d.held + kept, heldFp := d.heldFp + fp, heldPrepared := d.heldPrepared + kept,
         pendingBytes := d.pendingBytes + len,
         pending := d.pending + [File(d.next, len, m.size, fp)])
  }

  predicate BatchFull(det: bool, d: Desk, waiting: Option<Msg>) {
    if det then
      || |d.pending| >= BATCH_FILES
      || d.pendingBytes >= BATCH_BYTES
      || (waiting.Some? && Overflows(det, d, waiting.value))
    else d.pending != []
  }

  function Flushed(d: Desk): Desk {
    d.(c := d.c.(batches := d.c.batches + [d.pending]),
       board := d.board.(handled := d.board.handled + |d.pending|),
       pending := [], pendingBytes := 0)
  }

  /** Give back what the committed files held. */
  function Settled(d: Desk): Desk {
    if d.pending == [] then
      d.(board := Freed(d.board, d.held).(footprint := d.board.footprint - d.heldFp,
                                          preparedBytes := d.board.preparedBytes - d.heldPrepared),
         held := 0, heldFp := 0, heldPrepared := 0)
    else d
  }

  function Decided(det: bool, d: Desk, waiting: Option<Msg>, allIn: bool): Desk {
    if BatchFull(det, d, waiting) || (allIn && d.pending != []) then Flushed(d) else d
  }

  function Waiting(buf: map<nat, Msg>, next: nat): Option<Msg> {
    if next in buf then Some(buf[next]) else None
  }

  /** Everything the drain loop of one pass takes. */
  function DrainAll(det: bool, d: Desk, buf: map<nat, Msg>, g: nat): (r: (Desk, map<nat, Msg>))
    decreases |buf|
  {
    if d.next !in buf || Overflows(det, d, buf[d.next]) then (d, buf)
    else
      var d' := Advance(d, buf[d.next]);
      if AtLimit(det, d', g) then (d', buf - {d.next}) else DrainAll(det, d', buf - {d.next}, g)
  }

  /** One pass of the writer's loop, from taking what arrived to settling the
      budget; the last component says the run is over. */
  function Pass(det: bool, d: Desk, buf: map<nat, Msg>, g: nat, walkDone: bool, found: nat)
    : (Desk, map<nat, Msg>, bool)
  {
    var (d1, buf1) := DrainAll(det, d, buf, g);
    var allIn := walkDone && d1.next == found;
    var d2 := Settled(Decided(det, d1, Waiting(buf1, d1.next), allIn));
    (d2, buf1, allIn && d2.pending == [] && buf1 == map[])
  }

  /** The writer's loop body over its mutable state. */
  class Writer {
    var buf: map<nat, Msg>
    var next: nat
    var pending: seq<File>
    var pendingBytes: nat
    var held: nat
    var heldFp: nat
    var heldPrepared: nat
    var c: Collected
    var board: Board

    function View(): Desk
      reads this
    {
      Desk(next, pending, pendingBytes, held, heldFp, heldPrepared, c, board)
    }

    /** Nothing taken yet, over counters the other stages already move. */
    constructor (shared: Board)
      ensures buf == map[]
      ensures View() == Desk(0, [], 0, 0, 0, 0, Collected([], [], [], false), shared)
    {
      buf, next, pending, pendingBytes := map[], 0, [], 0;
      held, heldFp, heldPrepared := 0, 0, 0;
      c, board := Collected([], [], [], false), shared;
    }

    /** Everything that has arrived goes to the reorder buffer. */
    method Receive(arrived: seq<(nat, Msg)>)
      modifies this`buf
      ensures forall i :: i in buf <==> i in old(buf) || exists k :: 0 <= k < |arrived| && arrived[k].0 == i
      ensures forall i :: i in buf && (forall k :: 0 <= k < |arrived| ==> arrived[k].0 != i) ==> i in old(buf) && buf[i] == old(buf)[i]
      ensures (forall j, k :: 0 <= j < k < |arrived| ==> arrived[j].0 != arrived[k].0)
              ==> forall k :: 0 <= k < |arrived| ==> buf[arrived[k].0] == arrived[k].1
    {
      for n := 0 to |arrived|
        invariant forall i :: i in buf <==> i in old(buf) || exists k :: 0 <= k < n && arrived[k].0 == i
        invariant forall i :: i in buf && (forall k :: 0 <= k < n ==> arrived[k].0 != i) ==> i in old(buf) && buf[i] == old(buf)[i]
        invariant (forall j, k :: 0 <= j < k < n ==> arrived[j].0 != arrived[k].0)
                  ==> forall k :: 0 <= k < n ==> buf[arrived[k].0] == arrived[k].1
      {
        buf := buf[arrived[n].0 := arrived[n].1];
      }
    }

    method Drain(m: Msg)
      modifies this
      ensures View() == Advance(old(View()), m) && buf == old(buf)
    {
      match m.outcome {
      case Skipped(unreadable) =>
        c := c.(skipped := c.skipped + [next], walkErrors := c.walkErrors || unreadable);
        board := Freed(board, m.size).(handled := board.handled + 1);
      case Failed =>
        c := c.(failed := c.failed + [next]);
        board := Freed(board, m.size).(handled := board.handled + 1);
      case Prepared(len, fp) =>
        var kept := Min(len, m.size);
        if m.size > kept {
          board := Freed(board, m.size - kept);
        }
        held := held + kept;
        heldFp := heldFp + fp;
        heldPrepared := heldPrepared + kept;
        pendingBytes := pendingBytes + len;
        pending := pending + [File(next, len, m.size, fp)];
      }
      next := next + 1;
    }

    /** The drain loop: everything ready in walk order, until the batch is at its limit. */
    method DrainReady(det: bool, g: nat)
      modifies this
      ensures (View(), buf) == DrainAll(det, old(View()), old(buf), g)
    {
      while next in buf && !Overflows(det, View(), buf[next])
        invariant DrainAll(det, old(View()), old(buf), g) == DrainAll(det, View(), buf, g)
        decreases |buf|
      {
        var m := buf[next];
        buf := buf - {next};
        Drain(m);
        if AtLimit(det, View(), g) {
          return;
        }
      }
    }

    method Flush(det: bool, allIn: bool)
      modifies this
      ensures View() == Decided(det, old(View()), Waiting(buf, old(next)), allIn) && buf == old(buf)
    {
      if BatchFull(det, View(), Waiting(buf, next)) || (allIn && pending != []) {
        c := c.(batches := c.batches + [pending]);
        board := board.(handled := board.handled + |pending|);
        pending, pendingBytes := [], 0;
      }
    }

    method Settle()
      modifies this
      ensures View() == Settled(old(View())) && buf == old(buf)
    {
      if pending == [] {
        board := Freed(board, held).(footprint := board.footprint - heldFp,
                                     preparedBytes := board.preparedBytes - heldPrepared);
        held, heldFp, heldPrepared := 0, 0, 0;
      }
    }

    /** One pass after `Receive`: drain in walk order, flush if the batch closes,
        settle, and say whether everything is in and committed. */
    method Commit(det: bool, g: nat, walkDone: bool, found: nat) returns (finished: bool)
      modifies this
      ensures (View(), buf, finished) == Pass(det, old(View()), old(buf), g, walkDone, found)
    {
      DrainReady(det, g);
      var allIn := walkDone && next == found;
      Flush(det, allIn);
      Settle();
      finished := allIn && pending == [] && buf == map[];
    }
  }
}
