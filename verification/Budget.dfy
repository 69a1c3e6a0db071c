/**
 The byte budget that admission, the parse threads and the writer share
 (crates/graph-cli/src/dataflow.rs).

 `Ledger` is the value the lock protects. Each operation of the source is one
 critical section, so a history of the budget is a sequence of `Op`s in the
 order the lock was taken, whatever threads issued them. What `oldest()` answers,
 when the cap moves and to what are choices of the history.
 */
module Budget {
  import opened Basics


  datatype Ledger = Ledger(
    cap: nat, used: nat, scratch: nat, peak: nat, scratchPeak: nat,
    capMin: nat, capMax: nat, cancelled: bool)

  datatype Op =
    | Acquire(n: nat)
    | Release(n: nat)
    | Reserve(n: nat, oldest: bool)
    | Unreserve(n: nat)
    | SetCap(cap: nat)
    | Cancel

  /** `saturating_sub` on u64. */
  function SatSub(a: nat, b: nat): nat {
    if a < b then 0 else a - b
  }

  function Open(cap: nat): Ledger {
    var c := Max(cap, 1);
    Ledger(c, 0, 0, 0, 0, c, c, false)
  }

  /** `acquire` stops waiting: it fits, or at most `slack` bytes are in flight. */
  predicate Admits(b: Ledger, n: nat, slack: nat) {
    b.used <= slack || b.used + n <= b.cap
  }

  /** `acquire_scratch` stops waiting. */
  predicate Grants(b: Ledger, n: nat, oldest: bool) {
    || b.used + n <= b.cap
    || (b.scratch == 0 && oldest)
    || b.cancelled
  }

  function Acquired(b: Ledger, n: nat): Ledger {
    b.(used := b.used + n, peak := Max(b.peak, b.used + n))
  }

  function Released(b: Ledger, n: nat): Ledger {
    b.(used := SatSub(b.used, n))
  }

  function Reserved(b: Ledger, n: nat): Ledger {
    b.(used := b.used + n, scratch := b.scratch + n,
       peak := Max(b.peak, b.used + n), scratchPeak := Max(b.scratchPeak, b.scratch + n))
  }

  function Unreserved(b: Ledger, n: nat): Ledger {
    b.(used := SatSub(b.used, n), scratch := SatSub(b.scratch, n))
  }

  function Recapped(b: Ledger, cap: nat): Ledger {
    var c := Max(cap, 1);
    b.(cap := c, capMin := Min(b.capMin, c), capMax := Max(b.capMax, c))
  }

  function Apply(b: Ledger, op: Op): Ledger {
    match op
    case Acquire(n) => Acquired(b, n)
    case Release(n) => Released(b, n)
    case Reserve(n, _) => Reserved(b, n)
    case Unreserve(n) => Unreserved(b, n)
    case SetCap(c) => Recapped(b, c)
    case Cancel => b.(cancelled := true)
  }

  function Run(b: Ledger, ops: seq<Op>): Ledger {
    if ops == [] then b else Apply(Run(b, ops[..|ops| - 1]), ops[|ops| - 1])
  }

  /** The waiting operations went through only when their test let them, and
      nobody gives back more than is out. */
  predicate Legal(b: Ledger, op: Op, slack: nat) {
    match op
    case Acquire(n) => Admits(b, n, slack)
    case Release(n) => b.scratch <= b.used && n <= b.used - b.scratch
    case Reserve(n, oldest) => Grants(b, n, oldest)
    case Unreserve(n) => n <= b.scratch
    case SetCap(_) => true
    case Cancel => true
  }

  datatype Bounds = Bounds(slack: nat, item: nat, scratch: nat, cap: nat) {
    /** No request passes the bounds, and nobody cancels. */
    predicate Allow(op: Op) {
      match op
      case Acquire(n) => n <= item
      case Reserve(n, _) => n <= scratch
      case SetCap(c) => Max(c, 1) <= cap
      case Cancel => false
      case _ => true
    }

    function Bytes(): int {
      Max(cap, slack + item)
    }
  }

  predicate LegalRun(b: Ledger, ops: seq<Op>, m: Bounds) {
    forall k :: 0 <= k < |ops| ==> Legal(Run(b, ops[..k]), ops[k], m.slack) && m.Allow(ops[k])
  }

  /** What every legal step keeps. */
  predicate Within(b: Ledger, m: Bounds) {
    && !b.cancelled
    && 1 <= b.cap <= m.cap
    && b.scratch <= b.used
    && b.used - b.scratch <= m.Bytes()
    && b.scratch <= Max(m.cap, m.scratch)
    && b.used <= m.Bytes() + m.scratch
    && b.peak <= m.Bytes() + m.scratch
    && b.scratchPeak <= Max(m.cap, m.scratch)
    && b.capMin <= b.cap <= b.capMax <= m.cap
  }

  lemma StepWithin(b: Ledger, op: Op, m: Bounds)
    requires Within(b, m) && Legal(b, op, m.slack) && m.Allow(op)
    ensures Within(Apply(b, op), m)
  {
  }

  /** Every uncancelled interleaving stays in its bounds: the bytes in flight, the
      scratch, their sum, and the recorded peaks. */
  lemma {:induction false} RunWithin(cap: nat, ops: seq<Op>, m: Bounds)
    requires Max(cap, 1) <= m.cap && LegalRun(Open(cap), ops, m)
    ensures Within(Run(Open(cap), ops), m)
  {
    if ops == [] {
    } else {
      var front := ops[..|ops| - 1];
      forall k | 0 <= k < |front|
        ensures Legal(Run(Open(cap), front[..k]), front[k], m.slack) && m.Allow(front[k])
      {
        assert front[..k] == ops[..k];
      }
      RunWithin(cap, front, m);
      StepWithin(Run(Open(cap), front), ops[|ops| - 1], m);
    }
  }

  /** A reservation leaves the budget over its cap only when it was the only
      scratch held, so at most one parse stack is ever over the cap. */
  lemma OverCapIsAlone(cap: nat, ops: seq<Op>, m: Bounds, k: nat)
    requires Max(cap, 1) <= m.cap && LegalRun(Open(cap), ops, m)
    requires k < |ops| && ops[k].Reserve?
    requires var after := Run(Open(cap), ops[..k + 1]); after.used > after.cap
    ensures ops[k].oldest && Run(Open(cap), ops[..k + 1]).scratch == ops[k].n
    ensures Run(Open(cap), ops[..k]).scratch == 0
  {
    var front := ops[..k];
    forall j | 0 <= j < k
      ensures Legal(Run(Open(cap), front[..j]), front[j], m.slack) && m.Allow(front[j])
    {
      assert front[..j] == ops[..j];
    }
    RunWithin(cap, front, m);
    assert ops[..k + 1][..k] == front;
  }

  // ---- the bounds are attained

  function Ones(n: nat): seq<Op> {
    seq(n, i => Acquire(1))
  }

  lemma {:induction false} OnesFill(n: nat, m: Bounds)
    requires 1 <= m.item && 1 <= m.cap && n <= Max(m.cap, m.slack)
    ensures LegalRun(Open(m.cap), Ones(n), m)
    ensures Run(Open(m.cap), Ones(n)) == Open(m.cap).(used := n, peak := n)
  {
    if n == 0 {
    } else {
      OnesFill(n - 1, m);
      assert Ones(n)[..n - 1] == Ones(n - 1);
      forall k | 0 <= k < n
        ensures Legal(Run(Open(m.cap), Ones(n)[..k]), Ones(n)[k], m.slack) && m.Allow(Ones(n)[k])
      {
        if k < n - 1 {
          assert Ones(n)[..k] == Ones(n - 1)[..k];
        }
      }
    }
  }

  lemma Extend(b: Ledger, ops: seq<Op>, op: Op, m: Bounds)
    requires LegalRun(b, ops, m) && Legal(Run(b, ops), op, m.slack) && m.Allow(op)
    ensures LegalRun(b, ops + [op], m)
    ensures Run(b, ops + [op]) == Apply(Run(b, ops), op)
  {
    var all := ops + [op];
    assert all[..|ops|] == ops;
    forall k | 0 <= k < |all|
      ensures Legal(Run(b, all[..k]), all[k], m.slack) && m.Allow(all[k])
    {
      if k < |ops| {
        assert all[..k] == ops[..k];
      }
    }
  }

  /** No smaller bound on the total holds: some legal run reaches it. */
  lemma BoundIsAttained(m: Bounds) returns (ops: seq<Op>)
    requires 1 <= m.item && 1 <= m.cap
    ensures LegalRun(Open(m.cap), ops, m)
    ensures Run(Open(m.cap), ops).used == m.Bytes() + m.scratch
  {
    var b := Open(m.cap);
    if m.cap < m.slack + m.item {
      OnesFill(m.slack, m);
      Extend(b, Ones(m.slack), Acquire(m.item), m);
      ops := Ones(m.slack) + [Acquire(m.item)];
    } else {
      OnesFill(m.cap, m);
      ops := Ones(m.cap);
    }
    Extend(b, ops, Reserve(m.scratch, true), m);
    ops := ops + [Reserve(m.scratch, true)];
  }

  // ---- the monitor

  /**
   The monitor itself. A wait ends at the first wake-up whose test passes;
   `turns` is what the other threads do to the budget between wake-ups (the
   condition variable's timeout makes every change observable), and running out of turns
   is the caller still waiting.
   */
  class Monitor {
    var cap: nat
    var used: nat
    var scratch: nat
    var peak: nat
    var scratchPeak: nat
    var capMin: nat
    var capMax: nat
    var cancelled: bool

    function View(): Ledger
      reads this
    {
      Ledger(cap, used, scratch, peak, scratchPeak, capMin, capMax, cancelled)
    }

    constructor (c: nat)
      ensures View() == Open(c)
    {
      var floor := Max(c, 1);
      cap, capMin, capMax := floor, floor, floor;
      used, scratch, peak, scratchPeak, cancelled := 0, 0, 0, 0, false;
    }

    method MoveCap(c: nat)
      modifies this
      ensures View() == Recapped(old(View()), c)
    {
      cap := Max(c, 1);
      capMin := Min(capMin, cap);
      capMax := Max(capMax, cap);
    }

    method GiveBack(n: nat)
      modifies this
      ensures View() == Released(old(View()), n)
    {
      used := SatSub(used, n);
    }

    method GiveBackScratch(n: nat)
      modifies this
      ensures View() == Unreserved(old(View()), n)
    {
      used := SatSub(used, n);
      scratch := SatSub(scratch, n);
    }

    /** What another thread does while the caller waits. */
    method Turn(op: Op)
      modifies this
      ensures View() == Apply(old(View()), op)
    {
      match op
      case Acquire(n) =>
        used := used + n;
        peak := Max(peak, used);
      case Release(n) => GiveBack(n);
      case Reserve(n, _) =>
        used := used + n;
        scratch := scratch + n;
        scratchPeak := Max(scratchPeak, scratch);
        peak := Max(peak, used);
      case Unreserve(n) => GiveBackScratch(n);
      case SetCap(c) => MoveCap(c);
      case Cancel => cancelled := true;
    }

    /** Waits through `turns`; `k` of them passed before it returned. It goes
        through at the first moment its test passes, and a cancelled wait takes nothing. */
    method Take(n: nat, slack: nat, turns: seq<Op>) returns (ok: bool, k: nat)
      modifies this
      ensures k <= |turns|
      ensures forall j :: 0 <= j < k ==> !Admits(Run(old(View()), turns[..j]), n, slack)
      ensures ok <==> Admits(Run(old(View()), turns[..k]), n, slack)
      ensures View() == if ok then Acquired(Run(old(View()), turns[..k]), n) else Run(old(View()), turns[..k])
      ensures !ok ==> k == |turns| || Run(old(View()), turns[..k]).cancelled
    {
      k := 0;
      while used > slack && used + n > cap
        invariant k <= |turns|
        invariant View() == Run(old(View()), turns[..k])
        invariant forall j :: 0 <= j < k ==> !Admits(Run(old(View()), turns[..j]), n, slack)
        decreases |turns| - k
      {
        if cancelled || k == |turns| {
          return false, k;
        }
        Turn(turns[k]);
        assert turns[..k + 1][..k] == turns[..k];
        k := k + 1;
      }
      used := used + n;
      peak := Max(peak, used);
      ok := true;
    }

    /** `oldest[j]` is what the caller's `oldest()` answers at its j-th test. */
    method TakeScratch(n: nat, oldest: seq<bool>, turns: seq<Op>) returns (ok: bool, k: nat)
      requires |oldest| == |turns| + 1
      modifies this
      ensures k <= |turns|
      ensures forall j :: 0 <= j < k ==> !Grants(Run(old(View()), turns[..j]), n, oldest[j])
      ensures ok <==> Grants(Run(old(View()), turns[..k]), n, oldest[k])
      ensures View() == if ok then Reserved(Run(old(View()), turns[..k]), n) else Run(old(View()), turns[..k])
      ensures !ok ==> k == |turns|
    {
      k := 0;
      while used + n > cap && !(scratch == 0 && oldest[k]) && !cancelled
        invariant k <= |turns|
        invariant View() == Run(old(View()), turns[..k])
        invariant forall j :: 0 <= j < k ==> !Grants(Run(old(View()), turns[..j]), n, oldest[j])
        decreases |turns| - k
      {
        if k == |turns| {
          return false, k;
        }
        Turn(turns[k]);
        assert turns[..k + 1][..k] == turns[..k];
        k := k + 1;
      }
      used := used + n;
      scratch := scratch + n;
      scratchPeak := Max(scratchPeak, scratch);
      peak := Max(peak, used);
      ok := true;
    }
  }
}
