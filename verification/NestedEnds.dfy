/**
 Ends of nested lists no bracket table covers (crates/graph-core/src/scan.rs,
 `NestedEnds`): a forward scan that answers every opener it passes and keeps the
 answers, against the plain scan from one opener that keeps nothing.
 */
module Nested {
  import opened Options

  datatype Step = Open | Close | Stop | Skip(to: Option<nat>) | Other

  /** The rule of one instance: the step at a position, for a range end. */
  type Rule = (nat, nat) -> Step

  /** A group's closer is never before the group. */
  ghost predicate Forward(rule: Rule) {
    forall c: nat, hi: nat ::
      rule(c, hi).Skip? && rule(c, hi).to.Some? ==> c <= rule(c, hi).to.value
  }

  /** The plain scan: from `c` with `depth` lists open, where the one that was
      opened first closes. */
  ghost function Scan(rule: Rule, hi: nat, c: nat, depth: nat): (r: Option<nat>)
    requires Forward(rule)
    ensures r.Some? ==> c <= r.value < hi && rule(r.value, hi).Close?
    decreases hi - c
  {
    if c >= hi then None
    else
      match rule(c, hi)
      case Open => Scan(rule, hi, c + 1, depth + 1)
      case Close => if depth == 0 then None else if depth == 1 then Some(c) else Scan(rule, hi, c + 1, depth - 1)
      case Stop => None
      case Skip(None) => None
      case Skip(Some(to)) => Scan(rule, hi, to + 1, depth)
      case Other => Scan(rule, hi, c + 1, depth)
  }

  /** The answer for an opener, with no cache. */
  ghost function End(rule: Rule, hi: nat, open: nat): Option<nat>
    requires Forward(rule)
  {
    Scan(rule, hi, open, 0)
  }

  /** The innermost list ends first and the scan goes on from there with one less open. */
  ghost function Resumed(rule: Rule, hi: nat, first: Option<nat>, depth: nat): Option<nat>
    requires Forward(rule)
  {
    if first.None? then None else Scan(rule, hi, first.value + 1, depth)
  }

  lemma {:induction false} ScanSplits(rule: Rule, hi: nat, c: nat, depth: nat)
    requires Forward(rule) && 1 <= depth
    ensures Scan(rule, hi, c, depth + 1) == Resumed(rule, hi, Scan(rule, hi, c, 1), depth)
    decreases hi - c
  {
    if c < hi {
      match rule(c, hi)
      case Open =>
        ScanSplits(rule, hi, c + 1, 1);
        ScanSplits(rule, hi, c + 1, depth + 1);
        var inner := Scan(rule, hi, c + 1, 1);
        assert Scan(rule, hi, c, depth + 1) == Scan(rule, hi, c + 1, depth + 2);
        assert Scan(rule, hi, c, 1) == Scan(rule, hi, c + 1, 2);
        if inner.Some? {
          ScanSplits(rule, hi, inner.value + 1, depth);
        }
      case Close =>
      case Stop =>
      case Skip(None) =>
      case Skip(Some(to)) => ScanSplits(rule, hi, to + 1, depth);
      case Other => ScanSplits(rule, hi, c + 1, depth);
    }
  }

  /** An opener met on the way with its answer known: skip its list, or fail with it. */
  lemma KnownOpener(rule: Rule, hi: nat, c: nat, depth: nat)
    requires Forward(rule) && 1 <= depth && c < hi && rule(c, hi).Open?
    ensures Scan(rule, hi, c, depth) == Resumed(rule, hi, End(rule, hi, c), depth)
  {
    ScanSplits(rule, hi, c + 1, depth);
  }

  type Memo = map<(nat, nat), Option<nat>>

  /** Every cached answer is the plain scan's, and is about an opener. */
  ghost predicate Sound(rule: Rule, memo: Memo)
    requires Forward(rule)
  {
    forall o: nat, hi: nat :: (o, hi) in memo ==> rule(o, hi).Open? && o < hi && memo[(o, hi)] == End(rule, hi, o)
  }

  /** The openers on the path are increasing and the scan from each stands at `c`
      with the lists from it up still open. */
  ghost predicate OnPath(rule: Rule, hi: nat, stack: seq<nat>, c: nat)
    requires Forward(rule)
  {
    && (forall j :: 0 <= j < |stack| ==> stack[j] < c && stack[j] < hi && rule(stack[j], hi).Open?)
    && (forall i, j :: 0 <= i < j < |stack| ==> stack[i] < stack[j])
    && (forall j :: 0 <= j < |stack| ==> End(rule, hi, stack[j]) == Scan(rule, hi, c, |stack| - j))
  }

  /** The answers one scan found. */
  ghost predicate Answers(rule: Rule, hi: nat, found: seq<(nat, Option<nat>)>, c: nat)
    requires Forward(rule)
  {
    forall k :: 0 <= k < |found| ==>
      found[k].0 < c && found[k].0 < hi && rule(found[k].0, hi).Open? && found[k].1 == End(rule, hi, found[k].0)
  }

  /** What a lookup answers from a position that may not be an opener: the list of
      the first opener on the way that nobody has asked about. */
  ghost function FirstFresh(rule: Rule, memo: Memo, hi: nat, c: nat): Option<nat>
    requires Forward(rule) && Sound(rule, memo)
    decreases hi - c
  {
    if c >= hi then None
    else
      match rule(c, hi)
      case Open =>
        if (c, hi) !in memo then End(rule, hi, c)
        else if memo[(c, hi)].None? then None
        else FirstFresh(rule, memo, hi, memo[(c, hi)].value + 1)
      case Close => None
      case Stop => None
      case Skip(None) => None
      case Skip(Some(to)) => FirstFresh(rule, memo, hi, to + 1)
      case Other => FirstFresh(rule, memo, hi, c + 1)
  }

  /** The scan cannot go on from `c`. */
  ghost predicate Ends(rule: Rule, memo: Memo, hi: nat, c: nat) {
    || c >= hi
    || rule(c, hi).Stop?
    || rule(c, hi) == Skip(None)
    || (rule(c, hi).Open? && (c, hi) in memo && memo[(c, hi)].None?)
  }

  lemma AllFail(rule: Rule, memo: Memo, hi: nat, stack: seq<nat>, c: nat)
    requires Forward(rule) && Sound(rule, memo) && OnPath(rule, hi, stack, c) && Ends(rule, memo, hi, c)
    ensures forall j :: 0 <= j < |stack| ==> End(rule, hi, stack[j]) == None
  {
    forall j | 0 <= j < |stack|
      ensures End(rule, hi, stack[j]) == None
    {
      if c < hi && rule(c, hi).Open? {
        KnownOpener(rule, hi, c, |stack| - j);
      }
    }
  }

  /** The stack after one position the scan does not stop at. */
  ghost function Moved(rule: Rule, memo: Memo, hi: nat, stack: seq<nat>, c: nat): (seq<nat>, nat)
    requires c < hi && !Ends(rule, memo, hi, c) && (rule(c, hi).Close? ==> stack != [])
  {
    match rule(c, hi)
    case Open => if (c, hi) in memo then (stack, memo[(c, hi)].value + 1) else (stack + [c], c + 1)
    case Close => (stack[..|stack| - 1], c + 1)
    case Skip(Some(to)) => (stack, to + 1)
    case Other => (stack, c + 1)
  }

  lemma PathMoves(rule: Rule, memo: Memo, hi: nat, stack: seq<nat>, c: nat)
    requires Forward(rule) && Sound(rule, memo) && OnPath(rule, hi, stack, c) && c < hi && !Ends(rule, memo, hi, c)
    requires rule(c, hi).Close? ==> stack != []
    ensures var (stack', c') := Moved(rule, memo, hi, stack, c); c < c' && OnPath(rule, hi, stack', c')
    ensures rule(c, hi).Close? ==> End(rule, hi, stack[|stack| - 1]) == Some(c)
  {
    var (stack', c') := Moved(rule, memo, hi, stack, c);
    forall j | 0 <= j < |stack'|
      ensures End(rule, hi, stack'[j]) == Scan(rule, hi, c', |stack'| - j)
    {
      if rule(c, hi).Open? && (c, hi) in memo {
        KnownOpener(rule, hi, c, |stack| - j);
      }
    }
  }

  ghost function Openers(found: seq<(nat, Option<nat>)>, stack: seq<nat>): set<nat> {
    (set k | 0 <= k < |found| :: found[k].0) + (set j | 0 <= j < |stack| :: stack[j])
  }

  ghost function Keys(os: set<nat>, hi: nat): set<(nat, nat)> {
    set o | o in os :: (o, hi)
  }

  /** What the scan for `open` knows when it stands at `c`. */
  ghost predicate Scanning(rule: Rule, memo: Memo, hi: nat, open: nat, c: nat, stack: seq<nat>, found: seq<(nat, Option<nat>)>)
    requires Forward(rule) && Sound(rule, memo)
  {
    && open <= c
    && OnPath(rule, hi, stack, c) && Answers(rule, hi, found, c)
    && (stack == [] ==> found == [])
    && (FirstFresh(rule, memo, hi, open) == if stack == [] then FirstFresh(rule, memo, hi, c) else End(rule, hi, stack[0]))
    && (forall o :: o in Openers(found, stack) ==> open <= o < c && (o, hi) !in memo)
  }

  /** What a finished scan leaves: the answer, the openers it closed, and the ones
      it left open, which never close. */
  ghost predicate Finished(rule: Rule, memo: Memo, hi: nat, open: nat, r: Option<nat>, found: seq<(nat, Option<nat>)>, stack: seq<nat>)
    requires Forward(rule) && Sound(rule, memo)
  {
    && r == FirstFresh(rule, memo, hi, open)
    && Answers(rule, hi, found, hi)
    && (forall j :: 0 <= j < |stack| ==> stack[j] < hi && rule(stack[j], hi).Open? && End(rule, hi, stack[j]) == None)
    && (forall o :: o in Openers(found, stack) ==> open <= o && (o, hi) !in memo)
  }

  lemma ScanPasses(rule: Rule, memo: Memo, hi: nat, open: nat, c: nat, stack: seq<nat>, found: seq<(nat, Option<nat>)>)
    requires Forward(rule) && Sound(rule, memo) && Scanning(rule, memo, hi, open, c, stack, found)
    requires c < hi && !Ends(rule, memo, hi, c) && !rule(c, hi).Close? && (rule(c, hi).Open? ==> (c, hi) in memo)
    ensures c < Moved(rule, memo, hi, stack, c).1
    ensures Scanning(rule, memo, hi, open, Moved(rule, memo, hi, stack, c).1, stack, found)
  {
    PathMoves(rule, memo, hi, stack, c);
  }

  lemma PushAddsOpener(found: seq<(nat, Option<nat>)>, stack: seq<nat>, c: nat)
    ensures Openers(found, stack + [c]) == Openers(found, stack) + {c}
  {
    assert (stack + [c])[|stack|] == c;
    assert forall j :: 0 <= j < |stack| ==> (stack + [c])[j] == stack[j];
  }

  lemma KeysAdd(os: set<nat>, c: nat, hi: nat)
    requires c !in os
    ensures multiset(Keys(os + {c}, hi)) == multiset(Keys(os, hi)) + multiset{(c, hi)}
  {
    assert Keys(os + {c}, hi) == Keys(os, hi) + {(c, hi)};
  }

  lemma PathPushes(rule: Rule, memo: Memo, hi: nat, stack: seq<nat>, c: nat)
    requires Forward(rule) && Sound(rule, memo) && OnPath(rule, hi, stack, c) && c < hi && rule(c, hi).Open? && (c, hi) !in memo
    ensures OnPath(rule, hi, stack + [c], c + 1)
  {
    PathMoves(rule, memo, hi, stack, c);
  }

  lemma PathPops(rule: Rule, memo: Memo, hi: nat, stack: seq<nat>, c: nat)
    requires Forward(rule) && Sound(rule, memo) && OnPath(rule, hi, stack, c) && c < hi && rule(c, hi).Close? && stack != []
    ensures OnPath(rule, hi, stack[..|stack| - 1], c + 1) && End(rule, hi, stack[|stack| - 1]) == Some(c)
  {
    PathMoves(rule, memo, hi, stack, c);
  }

  lemma PushScans(rule: Rule, memo: Memo, hi: nat, open: nat, c: nat, stack: seq<nat>, found: seq<(nat, Option<nat>)>)
    requires Forward(rule) && Sound(rule, memo) && Scanning(rule, memo, hi, open, c, stack, found)
    requires c < hi && rule(c, hi).Open? && (c, hi) !in memo && Openers(found, stack + [c]) == Openers(found, stack) + {c}
    ensures Scanning(rule, memo, hi, open, c + 1, stack + [c], found)
  {
    PathPushes(rule, memo, hi, stack, c);
    assert (stack + [c])[0] == if stack == [] then c else stack[0];
  }

  lemma ScanPushes(rule: Rule, memo: Memo, hi: nat, open: nat, c: nat, stack: seq<nat>, found: seq<(nat, Option<nat>)>)
    requires Forward(rule) && Sound(rule, memo) && Scanning(rule, memo, hi, open, c, stack, found)
    requires c < hi && rule(c, hi).Open? && (c, hi) !in memo
    ensures Scanning(rule, memo, hi, open, c + 1, stack + [c], found)
    ensures multiset(Keys(Openers(found, stack + [c]), hi)) == multiset(Keys(Openers(found, stack), hi)) + multiset{(c, hi)}
  {
    PushAddsOpener(found, stack, c);
    PushScans(rule, memo, hi, open, c, stack, found);
    KeysAdd(Openers(found, stack), c, hi);
  }

  lemma PopKeepsOpeners(found: seq<(nat, Option<nat>)>, stack: seq<nat>, c: nat)
    requires stack != []
    ensures Openers(found + [(stack[|stack| - 1], Some(c))], stack[..|stack| - 1]) == Openers(found, stack)
  {
    var found' := found + [(stack[|stack| - 1], Some(c))];
    assert found'[|found|].0 == stack[|stack| - 1];
    assert forall k :: 0 <= k < |found| ==> found'[k] == found[k];
  }

  lemma OneMoreAnswer(rule: Rule, hi: nat, found: seq<(nat, Option<nat>)>, c: nat, o: nat, r: Option<nat>, c': nat)
    requires Forward(rule) && Answers(rule, hi, found, c) && c <= c' && o < c' && o < hi && rule(o, hi).Open? && r == End(rule, hi, o)
    ensures Answers(rule, hi, found + [(o, r)], c')
  {
  }

  lemma PopScans(rule: Rule, memo: Memo, hi: nat, open: nat, c: nat, stack: seq<nat>, found: seq<(nat, Option<nat>)>,
                 stack': seq<nat>, found': seq<(nat, Option<nat>)>)
    requires Forward(rule) && Sound(rule, memo) && Scanning(rule, memo, hi, open, c, stack, found)
    requires |stack'| == |stack| - 1 && (stack' != [] ==> stack'[0] == stack[0]) && Openers(found', stack') == Openers(found, stack)
    requires OnPath(rule, hi, stack', c + 1) && Answers(rule, hi, found', c + 1) && Answers(rule, hi, found', hi)
    ensures stack' != [] ==> Scanning(rule, memo, hi, open, c + 1, stack', found')
    ensures stack' == [] && End(rule, hi, stack[0]) == Some(c) ==> Finished(rule, memo, hi, open, Some(c), found', [])
  {
  }

  lemma ScanPops(rule: Rule, memo: Memo, hi: nat, open: nat, c: nat, stack: seq<nat>, found: seq<(nat, Option<nat>)>)
    requires Forward(rule) && Sound(rule, memo) && Scanning(rule, memo, hi, open, c, stack, found)
    requires c < hi && rule(c, hi).Close? && stack != []
    ensures var n := |stack| - 1;
            var found' := found + [(stack[n], Some(c))];
            && Openers(found', stack[..n]) == Openers(found, stack)
            && if n == 0 then Finished(rule, memo, hi, open, Some(c), found', []) else Scanning(rule, memo, hi, open, c + 1, stack[..n], found')
  {
    PathPops(rule, memo, hi, stack, c);
    PopKeepsOpeners(found, stack, c);
    var n := |stack| - 1;
    OneMoreAnswer(rule, hi, found, c, stack[n], Some(c), c + 1);
    OneMoreAnswer(rule, hi, found, c, stack[n], Some(c), hi);
    PopScans(rule, memo, hi, open, c, stack, found, stack[..n], found + [(stack[n], Some(c))]);
  }

  lemma ScanFails(rule: Rule, memo: Memo, hi: nat, open: nat, c: nat, stack: seq<nat>, found: seq<(nat, Option<nat>)>)
    requires Forward(rule) && Sound(rule, memo) && Scanning(rule, memo, hi, open, c, stack, found)
    requires Ends(rule, memo, hi, c) || (rule(c, hi).Close? && stack == [])
    ensures Finished(rule, memo, hi, open, None, found, stack)
  {
    if Ends(rule, memo, hi, c) {
      AllFail(rule, memo, hi, stack, c);
    }
  }

  ghost function Recorded(rule: Rule, hi: nat, stack: seq<nat>, found: seq<(nat, Option<nat>)>, c: nat): seq<(nat, Option<nat>)>
    requires rule(c, hi).Close? ==> stack != []
  {
    if rule(c, hi).Close? then found + [(stack[|stack| - 1], Some(c))] else found
  }

  /** One position the scan does not fail at: push, pop, or move on. */
  lemma ScanMoves(rule: Rule, memo: Memo, hi: nat, open: nat, c: nat, stack: seq<nat>, found: seq<(nat, Option<nat>)>)
    requires Forward(rule) && Sound(rule, memo) && Scanning(rule, memo, hi, open, c, stack, found)
    requires c < hi && !Ends(rule, memo, hi, c) && (rule(c, hi).Close? ==> stack != [])
    ensures var (stack', c') := Moved(rule, memo, hi, stack, c);
            var found' := Recorded(rule, hi, stack, found, c);
            && c < c'
            && (if rule(c, hi).Close? && stack' == [] then Finished(rule, memo, hi, open, Some(c), found', [])
                else Scanning(rule, memo, hi, open, c', stack', found'))
            && multiset(Keys(Openers(found', stack'), hi))
               == multiset(Keys(Openers(found, stack), hi)) + if rule(c, hi).Open? && (c, hi) !in memo then multiset{(c, hi)} else multiset{}
  {
    if rule(c, hi).Close? {
      ScanPops(rule, memo, hi, open, c, stack, found);
    } else if rule(c, hi).Open? && (c, hi) !in memo {
      ScanPushes(rule, memo, hi, open, c, stack, found);
    } else {
      ScanPasses(rule, memo, hi, open, c, stack, found);
    }
  }

  /** The move itself; `known` is the cached end of an opener answered before. */
  method Visit(ghost rule: Rule, ghost memo: Memo, ghost hi: nat, st: Step, known: Option<nat>, c: nat,
               stack: seq<nat>, found: seq<(nat, Option<nat>)>)
    returns (c': nat, stack': seq<nat>, found': seq<(nat, Option<nat>)>)
    requires c < hi && st == rule(c, hi) && !Ends(rule, memo, hi, c) && (st.Close? ==> stack != [])
    requires known == if st.Open? && (c, hi) in memo then memo[(c, hi)] else None
    ensures (stack', c') == Moved(rule, memo, hi, stack, c)
    ensures found' == Recorded(rule, hi, stack, found, c)
  {
    c', stack', found' := c + 1, stack, found;
    match st {
      case Open =>
        if known.Some? {
          c' := known.value + 1;
        } else {
          stack' := stack + [c];
        }
      case Close =>
        stack' := stack[..|stack| - 1];
        found' := found + [(stack[|stack| - 1], Some(c))];
      case Skip(to) =>
        c' := to.value + 1;
      case _ =>
    }
  }

  /** One scan over the answers so far; `pushes` counts what went on its stack. */
  method Look(ghost rule: Rule, memo: Memo, open: nat, hi: nat, step: nat -> Step)
    returns (r: Option<nat>, found: seq<(nat, Option<nat>)>, stack: seq<nat>, ghost pushes: multiset<(nat, nat)>)
    requires Forward(rule) && Sound(rule, memo) && (open, hi) !in memo && forall c: nat :: step(c) == rule(c, hi)
    ensures Finished(rule, memo, hi, open, r, found, stack)
    ensures pushes == multiset(Keys(Openers(found, stack), hi))
  {
    stack, found, r, pushes := [], [], None, multiset{};
    var c := open;
    while true
      invariant Scanning(rule, memo, hi, open, c, stack, found)
      invariant r == None && pushes == multiset(Keys(Openers(found, stack), hi))
      decreases hi - c
    {
      var st, at := step(c), c;
      var answered := st.Open? && c != open && (c, hi) in memo;
      if c >= hi || st.Stop? || st == Skip(None) || (answered && memo[(c, hi)].None?) || (st.Close? && stack == []) {
        ScanFails(rule, memo, hi, open, c, stack, found);
        break;
      }
      ScanMoves(rule, memo, hi, open, c, stack, found);
      pushes := pushes + if st.Open? && !answered then multiset{(c, hi)} else multiset{};
      c, stack, found := Visit(rule, memo, hi, st, if answered then memo[(c, hi)] else None, c, stack, found);
      if st.Close? && stack == [] {
        r := Some(at);
        break;
      }
    }
  }

  lemma FoundKeys(found: seq<(nat, Option<nat>)>, k: nat, hi: nat)
    requires k < |found|
    ensures Keys(Openers(found[..k + 1], []), hi) == Keys(Openers(found[..k], []), hi) + {(found[k].0, hi)}
  {
    var was, now := found[..k], found[..k + 1];
    assert now[k] == found[k] && forall i :: 0 <= i < k ==> now[i] == was[i];
    assert Openers(now, []) == Openers(was, []) + {found[k].0};
  }

  lemma StackKeys(found: seq<(nat, Option<nat>)>, stack: seq<nat>, j: nat, hi: nat)
    requires j < |stack|
    ensures Keys(Openers(found, stack[..j + 1]), hi) == Keys(Openers(found, stack[..j]), hi) + {(stack[j], hi)}
  {
    var was, now := stack[..j], stack[..j + 1];
    assert now[j] == stack[j] && forall i :: 0 <= i < j ==> now[i] == was[i];
    assert Openers(found, now) == Openers(found, was) + {stack[j]};
  }

  /** What one scan may add to the cache. */
  ghost predicate Right(rule: Rule, memo: Memo, hi: nat, o: nat, r: Option<nat>)
    requires Forward(rule)
  {
    o < hi && rule(o, hi).Open? && r == End(rule, hi, o) && (o, hi) !in memo
  }

  ghost predicate Extends(memo: Memo, all: Memo) {
    forall x :: x in memo ==> x in all && all[x] == memo[x]
  }

  lemma AddRight(rule: Rule, memo: Memo, all: Memo, hi: nat, o: nat, r: Option<nat>)
    requires Forward(rule) && Sound(rule, all) && Extends(memo, all) && Right(rule, memo, hi, o, r)
    ensures Sound(rule, all[(o, hi) := r]) && Extends(memo, all[(o, hi) := r])
  {
  }

  method RecordFound(ghost rule: Rule, memo: Memo, hi: nat, found: seq<(nat, Option<nat>)>) returns (all: Memo)
    requires Forward(rule) && Sound(rule, memo) && forall k :: 0 <= k < |found| ==> Right(rule, memo, hi, found[k].0, found[k].1)
    ensures Sound(rule, all) && Extends(memo, all) && all.Keys == memo.Keys + Keys(Openers(found, []), hi)
  {
    all := memo;
    for k := 0 to |found|
      invariant Sound(rule, all) && Extends(memo, all) && all.Keys == memo.Keys + Keys(Openers(found[..k], []), hi)
    {
      FoundKeys(found, k, hi);
      AddRight(rule, memo, all, hi, found[k].0, found[k].1);
      all := all[(found[k].0, hi) := found[k].1];
    }
    assert found[..|found|] == found;
  }

  method RecordFailed(ghost rule: Rule, ghost memo: Memo, was: Memo, hi: nat, ghost found: seq<(nat, Option<nat>)>, stack: seq<nat>) returns (all: Memo)
    requires Forward(rule) && Sound(rule, was) && Extends(memo, was) && was.Keys == memo.Keys + Keys(Openers(found, []), hi)
    requires forall j :: 0 <= j < |stack| ==> Right(rule, memo, hi, stack[j], None)
    ensures Sound(rule, all) && Extends(memo, all) && all.Keys == memo.Keys + Keys(Openers(found, stack), hi)
  {
    all := was;
    assert stack[..0] == [];
    for j := 0 to |stack|
      invariant Sound(rule, all) && Extends(memo, all) && all.Keys == memo.Keys + Keys(Openers(found, stack[..j]), hi)
    {
      StackKeys(found, stack, j, hi);
      AddRight(rule, memo, all, hi, stack[j], None);
      all := all[(stack[j], hi) := None];
    }
    assert stack[..|stack|] == stack;
  }

  lemma FinishedIsRight(rule: Rule, memo: Memo, hi: nat, open: nat, r: Option<nat>, found: seq<(nat, Option<nat>)>, stack: seq<nat>)
    requires Forward(rule) && Sound(rule, memo) && Finished(rule, memo, hi, open, r, found, stack)
    ensures forall k :: 0 <= k < |found| ==> Right(rule, memo, hi, found[k].0, found[k].1)
    ensures forall j :: 0 <= j < |stack| ==> Right(rule, memo, hi, stack[j], None)
  {
    assert forall k :: 0 <= k < |found| ==> found[k].0 in Openers(found, stack);
    assert forall j :: 0 <= j < |stack| ==> stack[j] in Openers(found, stack);
  }

  /** A scan's answers join the cache. */
  method Record(ghost rule: Rule, memo: Memo, ghost open: nat, hi: nat, ghost r: Option<nat>, found: seq<(nat, Option<nat>)>, stack: seq<nat>)
    returns (all: Memo)
    requires Forward(rule) && Sound(rule, memo) && Finished(rule, memo, hi, open, r, found, stack)
    ensures Sound(rule, all) && Extends(memo, all) && all.Keys == memo.Keys + Keys(Openers(found, stack), hi)
  {
    FinishedIsRight(rule, memo, hi, open, r, found, stack);
    all := RecordFound(rule, memo, hi, found);
    all := RecordFailed(rule, memo, all, hi, found, stack);
  }

  class NestedEnds {
    var memo: Memo
    ghost const rule: Rule
    /** How often each opener was pushed on a scan's stack, over the whole history. */
    ghost var pushed: multiset<(nat, nat)>

    /** The memo only holds right answers, and the openers pushed so far are exactly
        the answered ones, each pushed once. */
    ghost predicate Valid()
      reads this
    {
      && Forward(rule)
      && Sound(rule, memo)
      && pushed == multiset(memo.Keys)
    }

    constructor (ghost r: Rule)
      requires Forward(r)
      ensures Valid() && rule == r && memo == map[] && pushed == multiset{}
    {
      memo := map[];
      rule := r;
      pushed := multiset{};
    }


    /** Any query, in any order, with any range end: for an opener the answer is the plain
        scan's. What is cached stays cached. */
    method Find(open: nat, hi: nat, step: nat -> Step) returns (r: Option<nat>)
      requires Valid() && forall c: nat :: step(c) == rule(c, hi)
      modifies this
      ensures Valid()
      ensures open < hi && step(open).Open? ==> r == End(rule, hi, open)
      ensures (open, hi) !in old(memo) ==> r == FirstFresh(rule, old(memo), hi, open)
      ensures Extends(old(memo), memo)
    {
      if (open, hi) in memo {
        return memo[(open, hi)];
      }
      var found, stack;
      ghost var pushes;
      r, found, stack, pushes := Look(rule, memo, open, hi, step);
      memo := Record(rule, memo, open, hi, r, found, stack);
      assert pushed + pushes == multiset(old(memo).Keys + Keys(Openers(found, stack), hi));
      pushed := pushed + pushes;
    }
  }

  ghost function OneList(): Rule {
    (c: nat, hi: nat) => if c == 1 then Open else if c == 2 then Close else Other
  }

  /** From a position that is not an opener the answer depends on what was asked before,
      although the cache is right both times. */
  lemma NonOpenerDependsOnHistory()
    ensures Forward(OneList()) && Sound(OneList(), map[]) && Sound(OneList(), map[(1, 3) := Some(2)])
    ensures FirstFresh(OneList(), map[], 3, 0) == Some(2)
    ensures FirstFresh(OneList(), map[(1, 3) := Some(2)], 3, 0) == None
  {
    var rule := OneList();
    assert End(rule, 3, 1) == Scan(rule, 3, 2, 1) == Some(2);
    assert FirstFresh(rule, map[], 3, 0) == FirstFresh(rule, map[], 3, 1);
  }
}
