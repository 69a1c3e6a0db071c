/** The endpoints a client comes to by rotating (crates/graph-client/src/conn.rs). */
module Rotation {
  import opened Options
  import opened Retry

  type Parser = string -> bool

  /** The active endpoint after `k` rotations. */
  function Walk(eps: seq<string>, parses: Parser, active: string, k: nat): string {
    if k == 0 then active else Rotated(eps, parses, Walk(eps, parses, active, k - 1))
  }

  /** One of the first `n` rotations comes to `e`. */
  ghost predicate ComesTo(eps: seq<string>, parses: Parser, active: string, n: nat, e: string) {
    exists k :: 1 <= k <= n && Walk(eps, parses, active, k) == e
  }

  /** From wherever the client is, as many rotations as there are endpoints reach them all. */
  ghost predicate ReachesAll(eps: seq<string>, parses: Parser) {
    forall active, e :: e in eps ==> ComesTo(eps, parses, active, |eps|, e)
  }

  predicate Distinct(s: seq<string>) {
    forall i, j :: 0 <= i < j < |s| ==> s[i] != s[j]
  }

  /** The first `p` endpoints are all of them, once each, and what follows them is a repeat of
      the first. */
  predicate Rounds(eps: seq<string>, p: nat) {
    && 1 <= p <= |eps| && Distinct(eps[..p])
    && (forall e :: e in eps ==> e in eps[..p])
    && (p < |eps| ==> eps[p] == eps[0])
  }

  predicate AllParse(eps: seq<string>, parses: Parser) {
    forall e :: e in eps ==> parses(e)
  }

  // ---- when it works

  /** In a run of distinct endpoints each is found where it stands. */
  lemma FoundInPlace(eps: seq<string>, p: nat, i: nat)
    requires p <= |eps| && Distinct(eps[..p]) && i < p
    ensures FirstAt(eps, eps[i]) == Some(i)
  {
    var at := FirstAt(eps, eps[i]);
    assert at.Some? && at.value <= i;
    assert eps[..p][at.value] == eps[at.value] && eps[..p][i] == eps[i];
  }

  lemma AfterIndex(eps: seq<string>, parses: Parser, p: nat, i: nat)
    requires |eps| >= 2 && Rounds(eps, p) && AllParse(eps, parses) && i < p
    ensures Rotated(eps, parses, eps[i]) == eps[Succ(i, p)]
  {
    FoundInPlace(eps, p, i);
    assert eps[Succ(i, |eps|)] in eps;
  }

  lemma FromOutside(eps: seq<string>, parses: Parser, active: string)
    requires |eps| >= 2 && AllParse(eps, parses) && active !in eps
    ensures Rotated(eps, parses, active) == eps[0]
  {
    assert eps[0] in eps;
  }

  /** The index after `k` steps round `p`. */
  function Around(i: nat, k: nat, p: nat): (r: nat)
    requires i < p
    ensures r < p
  {
    if k == 0 then i else Succ(Around(i, k - 1, p), p)
  }

  lemma {:induction false} AroundIs(i: nat, k: nat, p: nat)
    requires i < p && k <= p
    ensures Around(i, k, p) == if i + k < p then i + k else i + k - p
  {
    if k == 0 {
    } else {
      AroundIs(i, k - 1, p);
    }
  }

  /** The walk goes round the first `p`. */
  lemma {:induction false} WalkRounds(eps: seq<string>, parses: Parser, p: nat, i: nat, k: nat)
    requires |eps| >= 2 && Rounds(eps, p) && AllParse(eps, parses) && i < p
    ensures Walk(eps, parses, eps[i], k) == eps[Around(i, k, p)]
  {
    if k == 0 {
    } else {
      WalkRounds(eps, parses, p, i, k - 1);
      AfterIndex(eps, parses, p, Around(i, k - 1, p));
    }
  }

  lemma {:induction false} WalkShift(eps: seq<string>, parses: Parser, active: string, k: nat)
    ensures Walk(eps, parses, active, k + 1) == Walk(eps, parses, Rotated(eps, parses, active), k)
  {
    if k == 0 {
    } else {
      WalkShift(eps, parses, active, k - 1);
    }
  }

  lemma Wraps(i: nat, j: nat, p: nat) returns (k: nat)
    requires i < p && j < p
    ensures 1 <= k <= p && Around(i, k, p) == j
  {
    k := if j > i then j - i else j + p - i;
    AroundIs(i, k, p);
  }

  lemma InPrefix(eps: seq<string>, p: nat, e: string) returns (j: nat)
    requires Rounds(eps, p) && e in eps
    ensures j < p && eps[j] == e
  {
    assert e in eps[..p];
    j :| 0 <= j < p && eps[..p][j] == e;
  }

  lemma RoundsReach(eps: seq<string>, parses: Parser, p: nat, active: string, e: string)
    requires |eps| >= 2 && Rounds(eps, p) && AllParse(eps, parses) && e in eps
    ensures ComesTo(eps, parses, active, |eps|, e)
  {
    var j := InPrefix(eps, p, e);
    if active in eps {
      var i := InPrefix(eps, p, active);
      var k := Wraps(i, j, p);
      WalkRounds(eps, parses, p, i, k);
      assert Walk(eps, parses, active, k) == e;
    } else {
      FromOutside(eps, parses, active);
      WalkShift(eps, parses, active, j);
      WalkRounds(eps, parses, p, 0, j);
      AroundIs(0, j, p);
      assert Walk(eps, parses, active, j + 1) == e;
    }
  }

  // ---- when it does not

  /** A set of endpoints that a rotation does not leave holds every walk from inside it. */
  ghost predicate Closed(eps: seq<string>, parses: Parser, inside: set<string>) {
    forall x :: x in inside ==> Rotated(eps, parses, x) in inside
  }

  lemma {:induction false} WalkStays(eps: seq<string>, parses: Parser, inside: set<string>, active: string, k: nat)
    requires Closed(eps, parses, inside) && active in inside
    ensures Walk(eps, parses, active, k) in inside
  {
    if k == 0 {
    } else {
      WalkStays(eps, parses, inside, active, k - 1);
    }
  }

  lemma WalkEnters(eps: seq<string>, parses: Parser, inside: set<string>, active: string, k: nat)
    requires Closed(eps, parses, inside) && Rotated(eps, parses, active) in inside && k >= 1
    ensures Walk(eps, parses, active, k) in inside
  {
    WalkShift(eps, parses, active, k - 1);
    WalkStays(eps, parses, inside, Rotated(eps, parses, active), k - 1);
  }

  lemma NotReached(eps: seq<string>, parses: Parser, inside: set<string>, active: string, e: string)
    requires Closed(eps, parses, inside) && Rotated(eps, parses, active) in inside && e !in inside
    ensures !ComesTo(eps, parses, active, |eps|, e)
  {
    forall k | 1 <= k <= |eps|
      ensures Walk(eps, parses, active, k) in inside
    {
      WalkEnters(eps, parses, inside, active, k);
    }
  }

  /** A string longer than every endpoint. */
  function Stranger(eps: seq<string>): (r: string)
    ensures r !in eps && forall e :: e in eps ==> |e| < |r|
  {
    if eps == [] then "a"
    else
      var r := Stranger(eps[..|eps| - 1]);
      var last := eps[|eps| - 1];
      assert forall e :: e in eps ==> e in eps[..|eps| - 1] || e == last;
      r + last + "a"
  }

  function Elements(s: seq<string>): set<string> {
    set e | e in s
  }

  lemma UnparsedIsNotReached(eps: seq<string>, parses: Parser, e: string)
    requires |eps| >= 2 && e in eps && !parses(e)
    ensures !ReachesAll(eps, parses)
  {
    var x := Stranger(eps);
    var inside := Elements(eps) + {x} - {e};
    assert Closed(eps, parses, inside);
    NotReached(eps, parses, inside, x, e);
  }

  /** The longest run of distinct endpoints from the front. */
  lemma LongestRun(eps: seq<string>) returns (p: nat)
    requires eps != []
    ensures 1 <= p <= |eps| && Distinct(eps[..p]) && (p < |eps| ==> eps[p] in eps[..p])
  {
    p := 1;
    while p < |eps| && eps[p] !in eps[..p]
      invariant 1 <= p <= |eps| && Distinct(eps[..p])
    {
      assert eps[..p + 1] == eps[..p] + [eps[p]];
      p := p + 1;
    }
  }

  lemma RunIsClosed(eps: seq<string>, parses: Parser, p: nat, from: nat)
    requires |eps| >= 2 && from < p <= |eps| && Distinct(eps[..p]) && AllParse(eps, parses)
    requires if p == |eps| then from == 0 else eps[p] in eps[from..p]
    ensures Closed(eps, parses, Elements(eps[from..p]))
  {
    forall x | x in Elements(eps[from..p])
      ensures Rotated(eps, parses, x) in Elements(eps[from..p])
    {
      var i :| from <= i < p && eps[i] == x;
      FoundInPlace(eps, p, i);
      var next := eps[Succ(i, |eps|)];
      assert next in eps;
      if i + 1 < p {
        assert eps[from..p][i + 1 - from] == next;
      } else if p == |eps| {
        assert eps[from..p][0] == next;
      }
    }
  }

  lemma MissedBeyond(eps: seq<string>, parses: Parser, p: nat, e: string)
    requires |eps| >= 2 && AllParse(eps, parses)
    requires 1 <= p <= |eps| && Distinct(eps[..p]) && (p < |eps| ==> eps[p] in eps[..p]) && e in eps && e !in eps[..p]
    ensures !ReachesAll(eps, parses)
  {
    assert eps[0..p] == eps[..p];
    RunIsClosed(eps, parses, p, 0);
    var x := Stranger(eps);
    FromOutside(eps, parses, x);
    assert eps[..p][0] in eps[..p];
    NotReached(eps, parses, Elements(eps[..p]), x, e);
  }

  lemma MissedBefore(eps: seq<string>, parses: Parser, p: nat, j: nat)
    requires |eps| >= 2 && AllParse(eps, parses)
    requires 0 < j < p < |eps| && Distinct(eps[..p]) && eps[p] == eps[j]
    ensures !ReachesAll(eps, parses)
  {
    assert eps[1..p][j - 1] == eps[p] && eps[1..p][0] == eps[1];
    RunIsClosed(eps, parses, p, 1);
    forall i | 0 <= i < p - 1
      ensures eps[1..p][i] != eps[0]
    {
      assert eps[..p][i + 1] != eps[..p][0];
    }
    FoundInPlace(eps, p, 0);
    assert Rotated(eps, parses, eps[0]) == eps[1];
    NotReached(eps, parses, Elements(eps[1..p]), eps[0], eps[0]);
    assert eps[0] in eps;
  }

  lemma NoRound(eps: seq<string>, parses: Parser, p: nat)
    requires |eps| >= 2 && AllParse(eps, parses)
    requires 1 <= p <= |eps| && Distinct(eps[..p]) && (p < |eps| ==> eps[p] in eps[..p]) && !Rounds(eps, p)
    ensures !ReachesAll(eps, parses)
  {
    if e :| e in eps && e !in eps[..p] {
      MissedBeyond(eps, parses, p, e);
    } else {
      var j :| 0 <= j < p && eps[..p][j] == eps[p];
      MissedBefore(eps, parses, p, j);
    }
  }

  /** With several endpoints, rotating reaches every one of them from everywhere exactly when
      they all parse and the list starts with one round of them all: repeats may only follow
      that round, and the first of those must be the first endpoint again. */
  lemma RotationReachesAll(eps: seq<string>, parses: Parser)
    requires |eps| >= 2
    ensures ReachesAll(eps, parses) <==> AllParse(eps, parses) && exists p :: Rounds(eps, p)
  {
    if !AllParse(eps, parses) {
      var e :| e in eps && !parses(e);
      UnparsedIsNotReached(eps, parses, e);
    } else if p :| Rounds(eps, p) {
      forall active, e | e in eps
        ensures ComesTo(eps, parses, active, |eps|, e)
      {
        RoundsReach(eps, parses, p, active, e);
      }
    } else {
      var p := LongestRun(eps);
      NoRound(eps, parses, p);
    }
  }

  /** In particular for distinct endpoints that parse. */
  lemma DistinctEndpointsAreReached(eps: seq<string>, parses: Parser)
    requires |eps| >= 2 && Distinct(eps) && AllParse(eps, parses)
    ensures ReachesAll(eps, parses)
  {
    assert eps[..|eps|] == eps;
    assert Rounds(eps, |eps|);
    RotationReachesAll(eps, parses);
  }

  /** With fewer than two endpoints the client stays where it is. */
  lemma {:induction false} OneEndpointStays(eps: seq<string>, parses: Parser, active: string, k: nat)
    requires |eps| < 2
    ensures Walk(eps, parses, active, k) == active
  {
    if k == 0 {
    } else {
      OneEndpointStays(eps, parses, active, k - 1);
    }
  }

  // ---- a call whose answers make it rotate

  /** The status makes the loop try the next endpoint. */
  predicate MovesOn(c: Call, st: Status) {
    && c.pin.None? && !(st.detail.NotLeader? && st.detail.leader.Some?)
    && (st.detail.NoLeader? || Retryable(c.kind, st) || ReadMovesOn(c.kind, |c.cfg.endpoints|, st))
  }

  predicate AllMoveOn(c: Call, es: seq<Event>) {
    forall e :: e in es ==> e.reply.Some? && MovesOn(c, e.reply.value)
  }

  lemma StepRotates(c: Call, s: State, e: Event)
    requires Step(c, s, e).Again? && e.reply.Some? && MovesOn(c, e.reply.value)
    ensures Step(c, s, e).next.active == Rotated(c.cfg.endpoints, c.parses, s.active)
  {
  }

  /** After `n` such answers the loop asks the endpoint `n` rotations on. */
  lemma {:induction false} RetriesRotate(c: Call, s: State, es: seq<Event>)
    requires Retries(c, s, es) && c.pin.None? && AllMoveOn(c, es)
    ensures Target(c, After(c, s, es)) == Walk(c.cfg.endpoints, c.parses, s.active, |es|)
    decreases es
  {
    if es == [] {
    } else {
      var next := Step(c, s, es[0]).next;
      StepRotates(c, s, es[0]);
      RetriesRotate(c, next, es[1..]);
      WalkShift(c.cfg.endpoints, c.parses, s.active, |es| - 1);
    }
  }

  lemma {:induction false} RetriesPrefix(c: Call, s: State, es: seq<Event>, k: nat)
    requires Retries(c, s, es) && k <= |es|
    ensures Retries(c, s, es[..k])
    decreases es
  {
    if k == 0 {
    } else {
      RetriesPrefix(c, Step(c, s, es[0]).next, es[1..], k - 1);
      assert es[..k][1..] == es[1..][..k - 1];
    }
  }

  /** The attempt after the first `k` answers asks `e`. */
  predicate Asks(c: Call, s: State, es: seq<Event>, k: nat, e: string) {
    1 <= k <= |es| && Retries(c, s, es[..k]) && Target(c, After(c, s, es[..k])) == e
  }

  /** If rotating reaches every endpoint, then a call that gets as many answers that make it
      rotate as there are endpoints, and goes on after each, has asked every one of them. */
  lemma EveryEndpointIsAsked(c: Call, s: State, es: seq<Event>, e: string)
    requires Retries(c, s, es) && c.pin.None? && AllMoveOn(c, es) && |es| == |c.cfg.endpoints|
    requires ReachesAll(c.cfg.endpoints, c.parses) && e in c.cfg.endpoints
    ensures exists k :: Asks(c, s, es, k, e)
  {
    assert ComesTo(c.cfg.endpoints, c.parses, s.active, |es|, e);
    var k :| 1 <= k <= |es| && Walk(c.cfg.endpoints, c.parses, s.active, k) == e;
    RetriesPrefix(c, s, es, k);
    RetriesRotate(c, s, es[..k]);
    assert Asks(c, s, es, k, e);
  }
}
