/**
 The memory budget of an index run (crates/graph-cli/src/sysinfo.rs): how a sample of the
 machine decides the cap, how the cap follows later samples, and how a derived page cache is
 fitted beside it. Floating point is taken as real arithmetic; a cast to an integer truncates.
 */
module Sizing {
  import opened Basics
  import opened Options

  const MIB: nat := 1024 * 1024
  const FALLBACK_BUDGET: nat := 512 * MIB
  const FLOOR: nat := 256 * MIB
  const PRESSURE_FLOOR: nat := 64 * MIB
  const FLOOR_SHARE: real := 0.25
  const OS_RESERVE: real := 0.20
  const INITIAL_EXPANSION: real := 25.0
  const CALIBRATE_MIN_HELD: nat := 16 * MIB
  const MIN_DERIVED_CACHE_BYTES: nat := 64 * MIB

  datatype Spec = Fixed(bytes: nat) | Fraction(f: real)
  datatype Sample = Sample(total: nat, available: nat, rss: Option<nat>, stall: Option<real>)

  datatype Policy = Policy(spec: Spec, floor: nat, underPressure: bool, cap: nat, expansion: real, pageCache: nat, firstAvailable: Option<nat>)

  /** A percentage is above 0 and at most 100. */
  predicate ValidSpec(s: Spec) {
    s.Fraction? ==> 0.0 < s.f <= 1.0
  }

  predicate Valid(p: Policy) {
    ValidSpec(p.spec) && p.floor >= 1 && 1.0 <= p.expansion <= 64.0
  }

  // ---- arithmetic

  function Trunc(x: real): nat
    requires x >= 0.0
  {
    x.Floor
  }

  function Ceil(x: real): nat
    requires x >= 0.0
  {
    if x.Floor as real == x then x.Floor else x.Floor + 1
  }

  function Less(a: nat, b: nat): nat {
    if a >= b then a - b else 0
  }

  /** The `share` part of `n`. */
  function Part(n: nat, share: real): nat
    requires share >= 0.0
  {
    Product(n as real, share);
    Trunc(n as real * share)
  }

  lemma Product(x: real, y: real)
    requires x >= 0.0 && y >= 0.0
    ensures x * y >= 0.0
  {
  }

  lemma Quotient(x: real, e: real)
    requires x >= 0.0 && e >= 1.0
    ensures 0.0 <= x / e <= x && (x / e) * e == x
  {
    var q := x / e;
    assert q * e == x;
    assert q >= 0.0 ==> q * e >= q;
  }

  /** Source bytes that `heap` bytes hold. */
  function Source(heap: nat, e: real): nat
    requires e >= 1.0
  {
    Quotient(heap as real, e);
    Trunc(heap as real / e)
  }

  // ---- the decision

  datatype Decision = Decision(cap: nat, underPressure: bool)

  function Target(spare: nat, f: real, cache: nat, e: real): nat
    requires f >= 0.0 && e >= 1.0
  {
    Source(Less(Part(spare, f), cache), e)
  }

  function ScaledFloor(p: Policy, floor: nat, share: real, total: nat): nat
    requires Valid(p) && share >= 0.0
  {
    Product(total as real, share);
    Quotient(total as real * share, p.expansion);
    Max(Min(floor, Trunc(total as real * share / p.expansion)), 1)
  }

  function Reserve(total: nat): nat {
    Part(total, OS_RESERVE)
  }

  predicate Pressed(p: Policy, m: Sample) {
    var reserve := Reserve(m.total);
    || m.available < (if p.underPressure then reserve + reserve / 2 else reserve)
    || (m.rss.Some? && m.rss.value as real > 0.60 * m.total as real)
    || (m.stall.Some? && m.stall.value > 10.0)
  }

  /** The floor of a fraction budget on this machine. */
  function FloorOf(p: Policy, total: nat): nat
    requires Valid(p)
  {
    Max(p.floor, ScaledFloor(p, FLOOR, FLOOR_SHARE, total))
  }

  function PressedCap(p: Policy, held: nat, total: nat): nat
    requires Valid(p)
  {
    Max(Max(held / 2, p.floor), ScaledFloor(p, PRESSURE_FLOOR, FLOOR_SHARE / 4.0, total))
  }

  function Clamp(x: nat, lo: nat, hi: nat): nat {
    if x < lo then lo else if x > hi then hi else x
  }

  /** What would be free if nothing were held. */
  function Seen(p: Policy, m: Sample, held: nat, growth: nat): nat
    requires Valid(p)
  {
    m.available + if growth > 0 then growth else Part(held, p.expansion)
  }

  /** The page cache that a fall since the first sample does not show yet. */
  function CacheLeft(p: Policy, seen: nat): nat {
    Less(p.pageCache, if p.firstAvailable.Some? then Less(p.firstAvailable.value, seen) else 0)
  }

  function TargetOf(p: Policy, m: Sample, seen: nat): nat
    requires Valid(p) && p.spec.Fraction?
  {
    Target(Less(seen, Reserve(m.total)), p.spec.f, CacheLeft(p, seen), p.expansion)
  }

  function FreeCap(p: Policy, m: Sample, seen: nat): nat
    requires Valid(p) && p.spec.Fraction?
  {
    var floor := FloorOf(p, m.total);
    Clamp(TargetOf(p, m, seen), floor, Max(m.total / 2, floor))
  }

  /** `decide`. */
  function Decide(p: Policy, sample: Option<Sample>, held: nat, growth: nat): Decision
    requires Valid(p)
  {
    if p.spec.Fixed? then Decision(Max(p.spec.bytes, p.floor), false)
    else if sample.None? || sample.value.total == 0 then Decision(Max(FALLBACK_BUDGET, p.floor), false)
    else if Pressed(p, sample.value) then Decision(PressedCap(p, held, sample.value.total), true)
    else Decision(FreeCap(p, sample.value, Seen(p, sample.value, held, growth)), false)
  }

  // ---- the policy as it runs

  class MemoryPolicy {
    var p: Policy

    ghost predicate Ok()
      reads this
    {
      Valid(p) && p.cap >= p.floor
    }

    /** `with_page_cache`: the first decision. */
    constructor (spec: Spec, floor: nat, first: Option<Sample>, pageCache: nat)
      requires ValidSpec(spec)
      ensures Ok() && p == Start(spec, floor, first, pageCache)
    {
      p := Start(spec, floor, first, pageCache);
    }

    /** `update_measured`: the growth estimate follows what is measured, and the cap moves only
        with the pressure or by more than a tenth; it never goes below the floor. */
    method UpdateMeasured(sample: Option<Sample>, held: nat, prepared: nat, footprint: nat) returns (d: Option<Decision>)
      requires Ok()
      modifies this
      ensures Ok() && p == Updated(old(p), sample, held, prepared, footprint).0
      ensures d == Updated(old(p), sample, held, prepared, footprint).1
      ensures d.None? ==> p.cap == old(p).cap && p.underPressure == old(p).underPressure
      ensures d.Some? ==> p.underPressure != old(p).underPressure || !Near(p.cap, old(p).cap)
    {
      if prepared >= CALIBRATE_MIN_HELD && footprint > 0 {
        p := p.(expansion := Calibrated(p.expansion, prepared, footprint));
      }
      var r := Decide(p, sample, held, footprint + Part(Less(held, prepared), p.expansion));
      DecideIsAboveFloor(p, sample, held, footprint + Part(Less(held, prepared), p.expansion));
      if r.underPressure == p.underPressure && Near(r.cap, p.cap) {
        return None;
      }
      p := p.(cap := r.cap, underPressure := r.underPressure);
      return Some(r);
    }
  }

  function Start(spec: Spec, floor: nat, first: Option<Sample>, pageCache: nat): (p: Policy)
    requires ValidSpec(spec)
    ensures Valid(p) && p.cap >= p.floor
  {
    var p := Policy(spec, Max(floor, 1), false, 1, INITIAL_EXPANSION, pageCache, if first.Some? then Some(first.value.available) else None);
    var d := Decide(p, first, 0, 0);
    DecideIsAboveFloor(p, first, 0, 0);
    p.(cap := d.cap, underPressure := d.underPressure)
  }

  /** Moved by no more than a tenth. */
  predicate Near(a: nat, b: nat) {
    10 * (if a >= b then a - b else b - a) <= b
  }

  function ClampReal(x: real): real {
    if x < 1.0 then 1.0 else if x > 64.0 then 64.0 else x
  }

  function Calibrated(e: real, prepared: nat, footprint: nat): (r: real)
    requires prepared > 0 && 1.0 <= e <= 64.0
    ensures 1.0 <= r <= 64.0
  {
    0.7 * e + 0.3 * ClampReal(footprint as real / prepared as real)
  }

  function Updated(p: Policy, sample: Option<Sample>, held: nat, prepared: nat, footprint: nat): (Policy, Option<Decision>)
    requires Valid(p)
  {
    var q := if prepared >= CALIBRATE_MIN_HELD && footprint > 0 then p.(expansion := Calibrated(p.expansion, prepared, footprint)) else p;
    var d := Decide(q, sample, held, footprint + Part(Less(held, prepared), q.expansion));
    if d.underPressure == q.underPressure && Near(d.cap, q.cap) then (q, None)
    else (q.(cap := d.cap, underPressure := d.underPressure), Some(d))
  }

  lemma DecideIsAboveFloor(p: Policy, sample: Option<Sample>, held: nat, growth: nat)
    requires Valid(p)
    ensures Decide(p, sample, held, growth).cap >= p.floor
  {
  }

  // ---- over every history of samples

  datatype Reading = Reading(sample: Option<Sample>, held: nat, prepared: nat, footprint: nat)

  function Fed(p: Policy, rs: seq<Reading>): Policy
    requires Valid(p)
    decreases rs
  {
    if rs == [] then p
    else
      UpdatedIsValid(p, rs[0]);
      Fed(Updated(p, rs[0].sample, rs[0].held, rs[0].prepared, rs[0].footprint).0, rs[1..])
  }

  lemma UpdatedIsValid(p: Policy, r: Reading)
    requires Valid(p)
    ensures var q := Updated(p, r.sample, r.held, r.prepared, r.footprint).0;
            Valid(q) && q.spec == p.spec && q.floor == p.floor && (p.cap >= p.floor ==> q.cap >= q.floor)
  {
    var q := if r.prepared >= CALIBRATE_MIN_HELD && r.footprint > 0 then p.(expansion := Calibrated(p.expansion, r.prepared, r.footprint)) else p;
    DecideIsAboveFloor(q, r.sample, r.held, r.footprint + Part(Less(r.held, r.prepared), q.expansion));
  }

  /** Whatever the samples, the estimate stays between 1 and 64 and the cap at or above the
      floor; a fixed budget never moves. */
  lemma {:induction false} StaysSound(p: Policy, rs: seq<Reading>)
    requires Valid(p) && p.cap >= p.floor
    ensures Valid(Fed(p, rs)) && Fed(p, rs).cap >= Fed(p, rs).floor == p.floor && Fed(p, rs).spec == p.spec
    ensures p.spec.Fixed? && p.cap == Max(p.spec.bytes, p.floor) && !p.underPressure ==> Fed(p, rs).cap == p.cap && !Fed(p, rs).underPressure
    decreases rs
  {
    if rs == [] {
    } else {
      UpdatedIsValid(p, rs[0]);
      StaysSound(Updated(p, rs[0].sample, rs[0].held, rs[0].prepared, rs[0].footprint).0, rs[1..]);
    }
  }

  /** Less than one and a half times the reserve is free. */
  predicate Short(r: Reading) {
    r.sample.Some? && r.sample.value.total > 0 && r.sample.value.available < Reserve(r.sample.value.total) + Reserve(r.sample.value.total) / 2
  }

  /** Pressure, once on, stays on through every run of samples that stay short. */
  lemma {:induction false} PressureLasts(p: Policy, rs: seq<Reading>)
    requires Valid(p) && p.spec.Fraction? && p.underPressure && forall i :: 0 <= i < |rs| ==> Short(rs[i])
    ensures Fed(p, rs).underPressure
    decreases rs
  {
    if rs == [] {
    } else {
      UpdatedIsValid(p, rs[0]);
      var q := Updated(p, rs[0].sample, rs[0].held, rs[0].prepared, rs[0].footprint).0;
      assert Short(rs[0]) && q.underPressure;
      PressureLasts(q, rs[1..]);
    }
  }

  // ---- fitting the page cache

  /** `page_cache_floor_warning`: the floor, not the share, sets the budget. */
  predicate FloorWarning(p: Policy, memory: Option<Sample>)
    requires Valid(p)
  {
    && p.spec.Fraction? && memory.Some? && p.pageCache != 0 && !p.underPressure && memory.value.total != 0
    && Target(Less(memory.value.available, Reserve(memory.value.total)), p.spec.f, p.pageCache, p.expansion) < p.cap
  }

  /** The heap the floor takes, and the heap share of a sample. */
  function FloorHeap(floor: nat, e: real): nat
    requires e >= 1.0
  {
    Product(floor as real, e);
    Ceil(floor as real * e)
  }

  function Share(m: Sample, f: real): nat
    requires f >= 0.0
  {
    Part(Less(m.available, Reserve(m.total)), f)
  }

  /** `fit_page_cache`: the cache to run with, and whether a warning is printed. */
  function FitPageCache(spec: Spec, floor: nat, memory: Option<Sample>, cache: nat, explicit: bool): (nat, bool)
    requires ValidSpec(spec)
  {
    var p := Start(spec, floor, memory, cache);
    if !FloorWarning(p, memory) then (cache, false)
    else if explicit then (cache, true)
    else (Min(Max(Less(Share(memory.value, spec.f), FloorHeap(p.cap, p.expansion)), MIN_DERIVED_CACHE_BYTES), cache), false)
  }

  /** The budget a share gives beside a cache. */
  function Beside(share: nat, cache: nat, e: real): nat
    requires e >= 1.0
  {
    Source(Less(share, cache), e)
  }

  lemma SourceIff(heap: nat, e: real, n: nat)
    requires e >= 1.0
    ensures Source(heap, e) >= n <==> heap as real >= n as real * e
  {
    Quotient(heap as real, e);
    var q := heap as real / e;
    if q >= n as real {
      Ordered(n as real, q, e);
    } else {
      StrictlyOrdered(q, n as real, e);
    }
  }

  lemma CeilIff(x: real, n: nat)
    requires x >= 0.0
    ensures n >= Ceil(x) <==> n as real >= x
    ensures x <= Ceil(x) as real < x + 1.0
  {
  }

  /** The floor's heap is the least that holds the floor, and holds no more. */
  lemma FloorHeapIsLeast(floor: nat, e: real, heap: nat)
    requires e >= 1.0
    ensures Source(heap, e) >= floor <==> heap >= FloorHeap(floor, e)
    ensures Source(FloorHeap(floor, e), e) == floor
  {
    var h := FloorHeap(floor, e);
    Product(floor as real, e);
    SourceIff(heap, e, floor);
    CeilIff(floor as real * e, heap);
    SourceIff(h, e, floor);
    SourceIff(h, e, floor + 1);
    assert (floor + 1) as real * e == floor as real * e + e;
  }

  lemma Ordered(x: real, y: real, e: real)
    requires x <= y && e >= 0.0
    ensures x * e <= y * e
  {
    assert (y - x) * e >= 0.0;
  }

  lemma StrictlyOrdered(x: real, y: real, e: real)
    requires x < y && e > 0.0
    ensures x * e < y * e
  {
    assert (y - x) * e > 0.0;
  }

  /** The largest cache beside which the share still gives the floor. */
  lemma LargestCache(share: nat, floor: nat, e: real, cache: nat)
    requires e >= 1.0 && floor >= 1
    ensures Beside(share, cache, e) >= floor <==> FloorHeap(floor, e) <= share && cache <= share - FloorHeap(floor, e)
    ensures FloorHeap(floor, e) <= share ==> Beside(share, share - FloorHeap(floor, e), e) == floor
  {
    FloorHeapIsLeast(floor, e, Less(share, cache));
    FloorHeapIsLeast(floor, e, 1);
    assert FloorHeap(floor, e) >= 1 by {
      Ordered(1.0, floor as real, e);
    }
  }

  /** The first decision of a fraction budget that is not pressed. */
  lemma FirstCap(spec: Spec, floor: nat, m: Sample, cache: nat)
    requires ValidSpec(spec) && spec.Fraction? && m.total != 0 && !Start(spec, floor, Some(m), cache).underPressure
    ensures var p := Start(spec, floor, Some(m), cache); var low := FloorOf(p, m.total);
            p.cap == Clamp(Beside(Share(m, spec.f), cache, p.expansion), low, Max(m.total / 2, low))
  {
  }

  /** The floor is the same whatever the cache. */
  lemma SameFloor(spec: Spec, floor: nat, m: Sample, c: nat, d: nat)
    requires ValidSpec(spec) && spec.Fraction? && m.total != 0
    ensures var p, q := Start(spec, floor, Some(m), c), Start(spec, floor, Some(m), d);
            p.underPressure == q.underPressure && FloorOf(p, m.total) == FloorOf(q, m.total) && p.expansion == q.expansion == INITIAL_EXPANSION
  {
  }

  /** When a derived cache would leave the share below the floor it is shrunk, never grown: to
      the largest cache beside which the share itself still gives the floor, unless that is
      under the minimum; and the budget is exactly the floor. */
  lemma FitsTheFloor(spec: Spec, floor: nat, m: Sample, cache: nat)
    requires ValidSpec(spec) && FloorWarning(Start(spec, floor, Some(m), cache), Some(m))
    ensures var r := FitPageCache(spec, floor, Some(m), cache, false).0;
            var low := FloorOf(Start(spec, floor, Some(m), cache), m.total);
            var share := Share(m, spec.f); var most := Less(share, FloorHeap(low, INITIAL_EXPANSION));
            && r <= cache
            && r == Min(Max(most, MIN_DERIVED_CACHE_BYTES), cache)
            && (most >= MIN_DERIVED_CACHE_BYTES ==>
                  r == most && Beside(share, r, INITIAL_EXPANSION) == low
                  && forall c: nat :: Beside(share, c, INITIAL_EXPANSION) >= low <==> c <= r)
            && Start(spec, floor, Some(m), r).cap == low
  {
    var p := Start(spec, floor, Some(m), cache);
    var low, share, e := FloorOf(p, m.total), Share(m, spec.f), INITIAL_EXPANSION;
    var r := FitPageCache(spec, floor, Some(m), cache, false).0;
    FirstCap(spec, floor, m, cache);
    assert p.cap == low;
    LargestCache(share, low, e, cache);
    LargestCache(share, low, e, r);
    SameFloor(spec, floor, m, cache, r);
    FirstCap(spec, floor, m, r);
    forall c: nat
      ensures Beside(share, c, e) >= low <==> FloorHeap(low, e) <= share && c <= share - FloorHeap(low, e)
    {
      LargestCache(share, low, e, c);
    }
  }

  // ---- the cache filling up

  lemma PartGrows(n: nat, x: nat, f: real)
    requires x <= n && 0.0 <= f <= 1.0
    ensures Part(n - x, f) + x >= Part(n, f)
  {
    var a, b := (n - x) as real * f, n as real * f;
    Ordered(f, 1.0, x as real);
    assert b == a + x as real * f;
    assert b <= a + x as real;
    Product((n - x) as real, f);
  }

  lemma SourceRises(a: nat, b: nat, e: real)
    requires a <= b && e >= 1.0
    ensures Source(a, e) <= Source(b, e)
  {
    Quotient(a as real, e);
    Quotient(b as real, e);
    if a as real / e > b as real / e {
      StrictlyOrdered(b as real / e, a as real / e, e);
    }
  }

  /** A fall of `x` that is all page cache takes nothing off the target. */
  lemma TargetHolds(spare: nat, x: nat, f: real, cache: nat, e: real)
    requires x <= spare && x <= cache && 0.0 <= f <= 1.0 && e >= 1.0
    ensures Target(spare - x, f, cache - x, e) >= Target(spare, f, cache, e)
  {
    PartGrows(spare, x, f);
    SourceRises(Less(Part(spare, f), cache), Less(Part(spare - x, f), cache - x), e);
  }

  /** As the page cache goes on filling, from `x` to `y`, the cap of a free machine never falls. */
  lemma FreeCapHolds(p: Policy, m: Sample, first: nat, x: nat, y: nat)
    requires Valid(p) && p.spec.Fraction? && p.firstAvailable == Some(first)
    requires x <= y <= p.pageCache && y <= first && Reserve(m.total) <= first - y
    ensures FreeCap(p, m, first - x) <= FreeCap(p, m, first - y)
  {
    TargetHolds(first - x - Reserve(m.total), y - x, p.spec.f, p.pageCache - x, p.expansion);
  }

  /** Free memory that falls only because the page cache filled never lowers the cap, as long
      as the sample does not show pressure. */
  lemma FilledCacheKeepsCap(p: Policy, first: Sample, m: Sample, held: nat, growth: nat, x: nat)
    requires Valid(p) && p.spec.Fraction? && p.firstAvailable == Some(first.available) && m.total == first.total != 0
    requires x <= p.pageCache && x <= first.available && Seen(p, m, held, growth) == first.available - x
    requires !Pressed(p, m)
    ensures Decide(p, Some(m), held, growth).cap >= FreeCap(p, first, first.available)
  {
    FreeCapHolds(p, m, first.available, 0, x);
  }

  /** Under pressure it may: the cap is then kept exactly if twice as much is held, or if it was
      no more than a floor. */
  lemma FilledCacheKeepsCapIff(p: Policy, first: Sample, m: Sample, held: nat, growth: nat, x: nat)
    requires Valid(p) && p.spec.Fraction? && p.firstAvailable == Some(first.available) && m.total == first.total != 0
    requires x <= p.pageCache && x <= first.available && Seen(p, m, held, growth) == first.available - x
    ensures var cap := FreeCap(p, first, first.available);
            Decide(p, Some(m), held, growth).cap >= cap
            <==> !Pressed(p, m) || held >= 2 * cap || cap == p.floor || cap <= ScaledFloor(p, PRESSURE_FLOOR, FLOOR_SHARE / 4.0, m.total)
  {
    if !Pressed(p, m) {
      FilledCacheKeepsCap(p, first, m, held, growth, x);
    }
  }

  /** What the reading adds to free memory for what is held. */
  function GrowthOf(p: Policy, r: Reading): nat
    requires Valid(p)
  {
    r.footprint + Part(Less(r.held, r.prepared), p.expansion)
  }

  /** The reading leaves the growth estimate alone, shows no pressure, and shows free memory
      `y` below the first sample, all of it page cache. */
  predicate Shows(p: Policy, total: nat, r: Reading, y: nat)
    requires Valid(p)
  {
    && (r.prepared < CALIBRATE_MIN_HELD || r.footprint == 0)
    && r.sample.Some? && r.sample.value.total == total && !Pressed(p, r.sample.value)
    && y <= p.pageCache
    && p.firstAvailable == Some(Seen(p, r.sample.value, r.held, GrowthOf(p, r)) + y)
  }

  /** The cache goes on filling, from reading to reading. */
  predicate Filling(p: Policy, total: nat, x: nat, rs: seq<Reading>, ys: seq<nat>)
    requires Valid(p) && |ys| == |rs|
    decreases rs
  {
    rs == [] ||
    (UpdatedIsValid(p, rs[0]);
     && x <= ys[0] && Shows(p, total, rs[0], ys[0])
     && Filling(Updated(p, rs[0].sample, rs[0].held, rs[0].prepared, rs[0].footprint).0, total, ys[0], rs[1..], ys[1..]))
  }

  /** The cap is no more than a free machine gives now, after the cache filled by `x`. */
  predicate CapIsDue(p: Policy, total: nat, x: nat)
    requires Valid(p)
  {
    && p.spec.Fraction? && !p.underPressure
    && p.firstAvailable.Some? && x <= p.pageCache && x <= p.firstAvailable.value
    && p.cap <= FreeCap(p, Sample(total, 0, None, None), p.firstAvailable.value - x)
  }

  lemma FillingStep(p: Policy, total: nat, x: nat, r: Reading, y: nat)
    requires Valid(p) && total > 0 && CapIsDue(p, total, x) && x <= y && Shows(p, total, r, y)
    ensures var q := Updated(p, r.sample, r.held, r.prepared, r.footprint).0;
            Valid(q) && CapIsDue(q, total, y) && q.cap >= p.cap
  {
    UpdatedIsValid(p, r);
    FreeCapHolds(p, r.sample.value, p.firstAvailable.value, x, y);
  }

  /** Through every run of such readings the running cap never falls. */
  lemma {:induction false} FillingNeverLowersCap(p: Policy, total: nat, x: nat, rs: seq<Reading>, ys: seq<nat>)
    requires Valid(p) && total > 0 && CapIsDue(p, total, x) && |ys| == |rs| && Filling(p, total, x, rs, ys)
    ensures Fed(p, rs).cap >= p.cap && !Fed(p, rs).underPressure
    decreases rs
  {
    if rs == [] {
    } else {
      var q := Updated(p, rs[0].sample, rs[0].held, rs[0].prepared, rs[0].footprint).0;
      FillingStep(p, total, x, rs[0], ys[0]);
      FillingNeverLowersCap(q, total, ys[0], rs[1..], ys[1..]);
    }
  }

  /** In particular from the first decision on. */
  lemma FilledCacheNeverLowersCap(spec: Spec, floor: nat, first: Sample, cache: nat, rs: seq<Reading>, ys: seq<nat>)
    requires ValidSpec(spec) && spec.Fraction? && first.total > 0 && |ys| == |rs|
    requires !Start(spec, floor, Some(first), cache).underPressure
    requires Filling(Start(spec, floor, Some(first), cache), first.total, 0, rs, ys)
    ensures Fed(Start(spec, floor, Some(first), cache), rs).cap >= Start(spec, floor, Some(first), cache).cap
  {
    FirstCap(spec, floor, first, cache);
    FillingNeverLowersCap(Start(spec, floor, Some(first), cache), first.total, 0, rs, ys);
  }

  /** A machine of 1000 bytes whose cache takes the free memory under the reserve. */
  lemma PressureLowersTheCap()
    ensures var first, m := Sample(1000, 250, None, None), Sample(1000, 199, None, None);
            var p := Start(Fraction(1.0), 1, Some(first), 100);
            && Seen(p, m, 0, 0) == first.available - 51 && 51 <= p.pageCache
            && p.cap == 10 && Decide(p, Some(m), 0, 0).cap == 2
  {
    assert Reserve(1000) == 200 by {
      assert 1000 as real * OS_RESERVE == 200.0;
    }
    assert 1000 as real * FLOOR_SHARE / INITIAL_EXPANSION == 10.0;
    assert 1000 as real * (FLOOR_SHARE / 4.0) / INITIAL_EXPANSION == 2.5;
    assert 2.5.Floor == 2;
    assert Part(50, 1.0) == 50;
    assert Part(0, INITIAL_EXPANSION) == 0;
    assert 0 as real / INITIAL_EXPANSION == 0.0;
  }

  // ---- the share of memory a budget takes

  lemma SourceFits(heap: nat, e: real)
    requires e >= 1.0
    ensures Source(heap, e) as real * e <= heap as real
  {
    Quotient(heap as real, e);
    Ordered(Source(heap, e) as real, heap as real / e, e);
  }

  lemma PartIsAtMost(n: nat, f: real)
    requires 0.0 <= f <= 1.0
    ensures Part(n, f) <= n
  {
    Ordered(f, 1.0, n as real);
    assert n as real * f <= n as real;
  }

  lemma TargetFits(spare: nat, f: real, cache: nat, e: real)
    requires 0.0 <= f <= 1.0 && e >= 1.0
    ensures Target(spare, f, cache, e) as real * e <= spare as real
  {
    SourceFits(Less(Part(spare, f), cache), e);
    PartIsAtMost(spare, f);
  }

  /** A fraction budget is its target, but for the floor and half of RAM. */
  lemma CapIsAtMostTarget(p: Policy, m: Sample, seen: nat)
    requires Valid(p) && p.spec.Fraction?
    ensures FloorOf(p, m.total) <= FreeCap(p, m, seen) <= Max(FloorOf(p, m.total), TargetOf(p, m, seen))
  {
  }

  /** The target, times the growth per source byte, is at most the memory above the reserve. */
  lemma TargetFitsMemory(p: Policy, m: Sample, seen: nat)
    requires Valid(p) && p.spec.Fraction? && seen <= m.total
    ensures TargetOf(p, m, seen) as real * p.expansion <= Less(m.total, Reserve(m.total)) as real
  {
    TargetFits(Less(seen, Reserve(m.total)), p.spec.f, CacheLeft(p, seen), p.expansion);
  }

  lemma Scales(cap: nat, floor: nat, target: nat, e: real, room: nat)
    requires floor <= cap <= Max(floor, target) && target as real * e <= room as real && e >= 0.0
    ensures cap == floor || cap as real * e <= room as real
  {
    if cap != floor {
      Ordered(cap as real, target as real, e);
    }
  }

  /** So is the cap itself, unless it is the floor. */
  lemma BudgetFits(p: Policy, m: Sample, seen: nat)
    requires Valid(p) && p.spec.Fraction? && seen <= m.total
    ensures FreeCap(p, m, seen) == FloorOf(p, m.total) || FreeCap(p, m, seen) as real * p.expansion <= Less(m.total, Reserve(m.total)) as real
  {
    hide FreeCap, FloorOf, TargetOf, Reserve;
    CapIsAtMostTarget(p, m, seen);
    TargetFitsMemory(p, m, seen);
    Scales(FreeCap(p, m, seen), FloorOf(p, m.total), TargetOf(p, m, seen), p.expansion, Less(m.total, Reserve(m.total)));
  }
}
