/**
 The client's retry loop (crates/graph-client/src/conn.rs): `call_at` against every sequence
 of answers, clock readings and random draws. Times are nanoseconds; the clock only goes
 forward, and a sleep lasts at least as long as asked.
 */
module Retry {
  import opened Basics
  import opened Options

  // ---- statuses

  datatype Code = Unavailable | Cancelled | DeadlineExceeded | Aborted | Unknown | OtherCode

  /** A status's detail: none, one that does not decode, or a typed error. */
  datatype Detail =
    | Empty
    | Garbled
    | NotLeader(leader: Option<string>)
    | NoLeader(retryAfterMs: nat)
    | Rejected(transient: bool)
    | OtherDetail

  datatype Status = Status(code: Code, message: string, detail: Detail)

  predicate OccursAt(s: string, w: string, i: nat) {
    i + |w| <= |s| && forall j :: 0 <= j < |w| ==> Lower(s[i + j]) == w[j]
  }

  /** In any case, as `w` is lower-case. */
  predicate Contains(s: string, w: string) {
    exists i :: 0 <= i <= |s| && OccursAt(s, w, i)
  }

  predicate TransportLoss(s: Status) {
    match s.code
    case Cancelled | DeadlineExceeded | Aborted => true
    case Unknown => exists w :: w in ["transport error", "connection", "broken pipe", "reset", "closed"] && Contains(s.message, w)
    case _ => false
  }

  datatype Kind = Read | Write

  predicate Retryable(kind: Kind, s: Status) {
    s.code.Unavailable? || (kind.Write? && s.detail.Empty? && TransportLoss(s))
  }

  predicate ReadMovesOn(kind: Kind, endpoints: nat, s: Status) {
    kind.Read? && endpoints > 1 && s.detail.Empty? && TransportLoss(s)
  }

  predicate TransientRefusal(kind: Kind, s: Status) {
    kind.Write? && s.detail.Rejected? && s.detail.transient
  }

  // ---- delays

  const MS: nat := 1_000_000
  const TRANSIENT_RETRY_MAX: nat := 250 * MS
  const SWITCHES_BEFORE_BACKOFF: nat := 2

  datatype Config = Config(endpoints: seq<string>, base: nat, cap: nat, readBudget: nat, writeDeadline: nat)

  /** Where the back-off of an attempt ends. */
  function Exp(c: Config, attempt: nat): nat {
    Min(c.base * Pow2(Min(attempt, 16)), c.cap)
  }

  /** `draw` is what the generator gave: it answers within 0..=max(extra, 1 ms). */
  function Jitter(c: Config, attempt: nat, draw: nat): nat {
    var cap := Exp(c, attempt);
    var half := cap / 2;
    half + Min(draw, Max((cap - half) / MS, 1)) * MS
  }

  function SwitchDelay(c: Config, switches: nat, attempt: nat, draw: nat): nat {
    if switches >= SWITCHES_BEFORE_BACKOFF then Jitter(c, attempt, draw) else 0
  }

  /** `Duration::clamp`, which stops the program when the bounds are crossed. */
  function Clamp(x: nat, lo: nat, hi: nat): Option<nat> {
    if lo > hi then None else Some(if x < lo then lo else if x > hi then hi else x)
  }

  // ---- endpoints

  predicate Bad(parses: string -> bool, addr: string) {
    !parses(addr)
  }

  function FirstAt(eps: seq<string>, e: string): Option<nat> {
    FirstFrom(eps, e, 0)
  }

  function FirstFrom(eps: seq<string>, e: string, i: nat): (r: Option<nat>)
    requires i <= |eps|
    ensures r.Some? ==> i <= r.value < |eps| && eps[r.value] == e && forall j :: i <= j < r.value ==> eps[j] != e
    ensures r.None? ==> forall j :: i <= j < |eps| ==> eps[j] != e
    decreases |eps| - i
  {
    if i == |eps| then None else if eps[i] == e then Some(i) else FirstFrom(eps, e, i + 1)
  }

  /** The next index, round the end. */
  function Succ(i: nat, n: nat): (r: nat)
    requires i < n
    ensures r < n
  {
    if i + 1 == n then 0 else i + 1
  }

  lemma SuccIsMod(i: nat, n: nat)
    requires i < n
    ensures Succ(i, n) == (i + 1) % n
  {
    if i + 1 < n {
      assert (i + 1) / n == 0;
    }
  }

  /** `rotate`: the configured endpoint after the active one; one that does not parse is
      not switched to. */
  function Rotated(eps: seq<string>, parses: string -> bool, active: string): string {
    if |eps| < 2 then active
    else
      var at := FirstAt(eps, active);
      var next := eps[if at.Some? then Succ(at.value, |eps|) else 0];
      if parses(next) then next else active
  }

  // ---- one round of the loop

  /** What the world does in one round: the answer, how long it took, how long until the
      clock is read again, the random draw and how late the sleep ends. */
  datatype Event = Event(reply: Option<Status>, took: nat, pause: nat, draw: nat, late: nat)

  datatype Error = Mapped(endpoint: string, status: Status) | NotLeaderError(leader: Option<string>) | NoLeaderError(ms: nat) | BadEndpoint(addr: string)

  datatype Outcome = Answered(endpoint: string) | Failed(error: Error) | Panicked

  datatype State = State(active: string, now: nat, attempt: nat, switches: nat)

  /** The round ends the call, or sleeps for `delay` and goes round again. */
  datatype Round = Stop(outcome: Outcome, active: string) | Again(next: State, delay: nat, scheduled: nat)

  datatype Call = Call(cfg: Config, parses: string -> bool, kind: Kind, pin: Option<string>, deadline: nat)

  /** `map_status`. */
  function MapStatus(endpoint: string, s: Status): Error {
    if s.detail.NotLeader? then NotLeaderError(s.detail.leader)
    else if s.detail.NoLeader? then NoLeaderError(s.detail.retryAfterMs)
    else Mapped(endpoint, s)
  }

  function DeadlineError(kind: Kind, endpoint: string, s: Status, cfg: Config): Error {
    var e := MapStatus(endpoint, s);
    if kind.Read? || e.NotLeaderError? || TransientRefusal(kind, s) then e else NoLeaderError(cfg.cap / MS)
  }

  /** What the answer asks for: an end, or a delay and the switches in a row; and the endpoint
      that is then active. */
  datatype Plan = End(outcome: Outcome, active: string) | Wait(delay: nat, active: string, switches: nat)

  function Planned(c: Call, s: State, st: Status, now: nat, draw: nat): Plan {
    var endpoint := if c.pin.Some? then c.pin.value else s.active;
    if c.pin.Some? then
      if !Retryable(c.kind, st) || st.detail.NoLeader? then End(Failed(MapStatus(endpoint, st)), s.active)
      else Wait(Jitter(c.cfg, s.attempt, draw), s.active, s.switches)
    else if st.detail.NotLeader? && st.detail.leader.Some? then
      if now >= c.deadline then End(Failed(NotLeaderError(st.detail.leader)), s.active)
      else if Bad(c.parses, st.detail.leader.value) then End(Failed(BadEndpoint(st.detail.leader.value)), s.active)
      else Wait(SwitchDelay(c.cfg, s.switches + 1, s.attempt, draw), st.detail.leader.value, s.switches + 1)
    else if st.detail.NoLeader? then
      var next := Rotated(c.cfg.endpoints, c.parses, s.active);
      var d := Clamp(st.detail.retryAfterMs * MS, c.cfg.base, c.cfg.cap);
      if d.None? then End(Panicked, next) else Wait(d.value, next, 0)
    else if Retryable(c.kind, st) || ReadMovesOn(c.kind, |c.cfg.endpoints|, st) then
      Wait(Jitter(c.cfg, s.attempt, draw), Rotated(c.cfg.endpoints, c.parses, s.active), 0)
    else if TransientRefusal(c.kind, st) then
      Wait(Min(Jitter(c.cfg, s.attempt, draw), TRANSIENT_RETRY_MAX), s.active, 0)
    else End(Failed(MapStatus(endpoint, st)), s.active)
  }

  function Target(c: Call, s: State): string {
    if c.pin.Some? then c.pin.value else s.active
  }

  function Step(c: Call, s: State, e: Event): Round {
    if e.reply.None? then Stop(Answered(Target(c, s)), s.active)
    else
      var answered := s.now + e.took;
      var p := Planned(c, s, e.reply.value, answered, e.draw);
      match p
      case End(o, active) => Stop(o, active)
      case Wait(delay, active, switches) =>
        var checked := answered + e.pause;
        if checked + delay > c.deadline then Stop(Failed(DeadlineError(c.kind, Target(c, s), e.reply.value, c.cfg)), active)
        else Again(State(active, checked + delay + e.late, s.attempt + 1, switches), delay, checked + delay)
  }

  // ---- retries in a row

  /** Every one of the events makes the loop go round again. */
  predicate Retries(c: Call, s: State, es: seq<Event>)
    decreases es
  {
    es == [] || (Step(c, s, es[0]).Again? && Retries(c, Step(c, s, es[0]).next, es[1..]))
  }

  function After(c: Call, s: State, es: seq<Event>): State
    requires Retries(c, s, es)
    decreases es
  {
    if es == [] then s else After(c, Step(c, s, es[0]).next, es[1..])
  }

  function Slept(c: Call, s: State, es: seq<Event>): nat
    requires Retries(c, s, es)
    decreases es
  {
    if es == [] then 0 else Step(c, s, es[0]).delay + Slept(c, Step(c, s, es[0]).next, es[1..])
  }

  /** The shortest back-off. */
  function Least(c: Config): nat {
    Min(Min(c.base, c.cap) / 2, TRANSIENT_RETRY_MAX)
  }

  lemma Scales(x: nat, y: nat)
    requires y >= 1
    ensures x * y >= x
  {
  }

  lemma JitterIsLong(c: Config, attempt: nat, draw: nat)
    ensures Jitter(c, attempt, draw) >= Min(c.base, c.cap) / 2
    ensures attempt >= 1 && c.base >= 1 && c.cap >= 2 ==> Jitter(c, attempt, draw) >= 1
  {
    var p := Pow2(Min(attempt, 16));
    Scales(c.base, p);
    if attempt >= 1 {
      assert p == 2 * Pow2(Min(attempt, 16) - 1);
      Scales(2, Pow2(Min(attempt, 16) - 1));
      if c.base >= 1 {
        Scales(p, c.base);
      }
    }
  }

  /** A retry sleeps for the least back-off, unless it follows the first redirect in a row. */
  lemma RetrySleeps(c: Call, s: State, e: Event)
    requires Step(c, s, e).Again?
    ensures var r := Step(c, s, e);
            r.delay >= Least(c.cfg) || (s.switches == 0 && r.next.switches == 1 && r.delay == 0 && s.now < c.deadline)
  {
    JitterIsLong(c.cfg, s.attempt, e.draw);
  }

  /** Any two retries in a row sleep for at least the least back-off. */
  lemma TwoRetriesSleep(c: Call, s: State, d: Event, e: Event)
    requires Retries(c, s, [d, e])
    ensures Slept(c, s, [d, e]) >= Least(c.cfg)
  {
    var r := Step(c, s, d);
    assert [d, e][1..] == [e];
    RetrySleeps(c, s, d);
    RetrySleeps(c, r.next, e);
  }

  function Refused(st: Status): Event {
    Event(Some(st), 0, 0, 0, 0)
  }

  /** And two retries may sleep for no more than that: a first refusal, then a redirect. */
  lemma LeastIsAttained(c: Call, s: State, addr: string) returns (d: Event, e: Event)
    requires c.kind.Write? && c.pin.None? && c.parses(addr) && s.attempt == 0 && s.now + Least(c.cfg) < c.deadline
    ensures Retries(c, s, [d, e]) && Slept(c, s, [d, e]) == Least(c.cfg)
  {
    d := Refused(if Min(c.cfg.base, c.cfg.cap) / 2 <= TRANSIENT_RETRY_MAX then Status(Unavailable, "", Empty)
                 else Status(OtherCode, "", Rejected(true)));
    e := Refused(Status(OtherCode, "", NotLeader(Some(addr))));
    assert Pow2(0) == 1;
    var r := Step(c, s, d);
    assert r.Again? && r.delay == Least(c.cfg);
    assert [d, e][1..] == [e] && [e][1..] == [];
    var q := Step(c, r.next, e);
    assert q.Again? && q.delay == 0;
    assert Slept(c, r.next, [e]) == 0;
  }

  /** No retry is scheduled past the deadline, and one starts later only by what its own
      sleep overran. */
  lemma {:induction false} NoRetryPastDeadline(c: Call, s: State, es: seq<Event>)
    requires Retries(c, s, es) && es != []
    ensures After(c, s, es).now <= c.deadline + es[|es| - 1].late
    ensures s.now + Slept(c, s, es) <= c.deadline
    decreases es
  {
    var r := Step(c, s, es[0]);
    if |es| > 1 {
      NoRetryPastDeadline(c, r.next, es[1..]);
    }
  }

  function Bit(s: State): nat {
    if s.switches == 0 then 1 else 0
  }

  lemma OneMore(n: nat, l: nat, d: nat, slept: nat, b: nat, b': nat)
    requires n * l <= 2 * slept + b' * l && b <= 1 && b' <= 1
    requires d >= l || (b == 1 && b' == 0)
    ensures (n + 1) * l <= 2 * (d + slept) + b * l
  {
    assert (n + 1) * l == n * l + l;
    assert b' * l <= l;
  }

  lemma {:induction false} SleptCounts(c: Call, s: State, es: seq<Event>, l: nat)
    requires Retries(c, s, es) && l == Least(c.cfg)
    ensures |es| * l <= 2 * Slept(c, s, es) + Bit(s) * l
    decreases es
  {
    if es == [] {
    } else {
      var r := Step(c, s, es[0]);
      SleptCounts(c, r.next, es[1..], l);
      RetrySleeps(c, s, es[0]);
      OneMore(|es[1..]|, l, r.delay, Slept(c, r.next, es[1..]), Bit(s), Bit(r.next));
    }
  }

  lemma AllButOne(n: nat, l: nat, slept: nat, b: nat, budget: nat)
    requires n > 0 && n * l <= 2 * slept + b * l && b <= 1 && slept <= budget
    ensures (n - 1) * l <= 2 * budget
  {
    assert (n - 1) * l == n * l - l;
    assert b * l <= l;
  }

  /** Against every sequence of answers: all retries but one, times half the least back-off,
      fit in the budget. */
  lemma RetriesAreBounded(c: Call, s: State, es: seq<Event>)
    requires Retries(c, s, es) && es != [] && s.now <= c.deadline
    ensures (|es| - 1) * Least(c.cfg) <= 2 * (c.deadline - s.now)
  {
    SleptCounts(c, s, es, Least(c.cfg));
    NoRetryPastDeadline(c, s, es);
    AllButOne(|es|, Least(c.cfg), Slept(c, s, es), Bit(s), c.deadline - s.now);
  }

  // ---- when the loop ends

  predicate BacksOff(c: Config) {
    c.base >= 1 && c.cap >= 2
  }

  function Left(c: Call, s: State): nat {
    2 * Max(c.deadline - Min(c.deadline, s.now), 0) + Bit(s) + if s.attempt == 0 then 2 else 0
  }

  lemma EveryRetryLeavesLess(c: Call, s: State, e: Event)
    requires BacksOff(c.cfg) && Step(c, s, e).Again?
    ensures Left(c, Step(c, s, e).next) < Left(c, s)
  {
    JitterIsLong(c.cfg, s.attempt, e.draw);
  }

  lemma {:induction false} FewRetries(c: Call, s: State, es: seq<Event>)
    requires BacksOff(c.cfg) && Retries(c, s, es)
    ensures |es| <= Left(c, s)
    decreases es
  {
    if es == [] {
    } else {
      EveryRetryLeavesLess(c, s, es[0]);
      FewRetries(c, Step(c, s, es[0]).next, es[1..]);
    }
  }

  const REFUSAL := Refused(Status(Unavailable, "", Empty))

  lemma NoBackOff(c: Config, attempt: nat)
    requires !BacksOff(c)
    ensures Jitter(c, attempt, 0) == 0
  {
  }

  /** With a clock that stands still a refusing server is asked any number of times. */
  lemma {:induction false} RefusedForever(c: Call, s: State, n: nat) returns (es: seq<Event>)
    requires !BacksOff(c.cfg) && s.now <= c.deadline
    ensures |es| == n && Retries(c, s, es)
    decreases n
  {
    es := [];
    if n == 0 {
    } else {
      NoBackOff(c.cfg, s.attempt);
      var rest := RefusedForever(c, Step(c, s, REFUSAL).next, n - 1);
      es := [REFUSAL] + rest;
      assert es[1..] == rest;
    }
  }

  ghost predicate AtMost(c: Call, s: State, n: nat) {
    forall es :: Retries(c, s, es) ==> |es| <= n
  }

  /** The number of retries is bounded, whatever the world does, exactly when the base is at
      least one nanosecond and the cap at least two. */
  lemma EndsIffItBacksOff(c: Call, s: State)
    requires s.now <= c.deadline
    ensures BacksOff(c.cfg) <==> exists n :: AtMost(c, s, n)
  {
    if BacksOff(c.cfg) {
      forall es | Retries(c, s, es)
        ensures |es| <= Left(c, s)
      {
        FewRetries(c, s, es);
      }
      assert AtMost(c, s, Left(c, s));
    } else {
      forall n: nat
        ensures !AtMost(c, s, n)
      {
        var es := RefusedForever(c, s, n + 1);
        assert Retries(c, s, es);
      }
    }
  }

  // ---- pins

  /** A pinned call leaves the active endpoint alone. */
  lemma PinnedStaysPut(c: Call, s: State, e: Event)
    requires c.pin.Some?
    ensures var r := Step(c, s, e); (if r.Stop? then r.active else r.next.active) == s.active
  {
  }

  lemma {:induction false} PinnedNeverMoves(c: Call, s: State, es: seq<Event>)
    requires c.pin.Some? && Retries(c, s, es)
    ensures After(c, s, es).active == s.active && Target(c, After(c, s, es)) == c.pin.value
    decreases es
  {
    if es == [] {
    } else {
      PinnedStaysPut(c, s, es[0]);
      PinnedNeverMoves(c, Step(c, s, es[0]).next, es[1..]);
    }
  }

  // ---- what a failed call says

  /** A write never reports a status that it would retry, and a read never says there is no
      leader unless the server did. */
  lemma FailureSays(c: Call, s: State, e: Event)
    requires Step(c, s, e).Stop? && Step(c, s, e).outcome.Failed?
    ensures var err := Step(c, s, e).outcome.error; var st := e.reply.value;
            && (c.kind.Write? && err.Mapped? ==> !Retryable(Write, st) || TransientRefusal(Write, st))
            && (c.kind.Read? && err.NoLeaderError? ==> st.detail == NoLeader(err.ms))
  {
  }
}
