/**
 The bracket and keyword-block scanners of crates/graph-core/src/scan.rs: the scan
 from one opener, the table for all openers in one pass, and the cursor that skips groups.
 */
module Scans {
  import opened Basics
  import opened Options
  import opened Delimiters
  import opened Tokens

  datatype Token = Token(text: string, kind: TokenClass)

  predicate IsTrivia(t: Token) {
    t.kind.Comment? || t.kind.Literal?
  }

  function CloserFor(text: string): Option<string> {
    if text == "(" then Some(")")
    else if text == "[" then Some("]")
    else if text == "{" then Some("}")
    else None
  }

  predicate IsCloser(text: string) {
    text == ")" || text == "]" || text == "}"
  }

  function Bracket(t: Token): Delim {
    if IsTrivia(t) then Neutral
    else if CloserFor(t.text).Some? then Opens(CloserFor(t.text).value)
    else if IsCloser(t.text) then Closes(t.text)
    else Neutral
  }

  function Brackets(tokens: seq<Token>): seq<Delim> {
    seq(|tokens|, i requires 0 <= i < |tokens| => Bracket(tokens[i]))
  }

  function Exact(): Fits {
    (text, want) => text == want
  }

  // ---- keyword blocks

  /** `eq_ignore_ascii_case`, or equality. */
  predicate SameWord(ignoreCase: bool, a: string, b: string) {
    if ignoreCase then |a| == |b| && forall i :: 0 <= i < |a| ==> Lower(a[i]) == Lower(b[i]) else a == b
  }

  type Pairs = seq<(string, string)>

  /** The first pair that opens with `text`. */
  function OpenerIndex(pairs: Pairs, ignoreCase: bool, text: string): (r: Option<nat>)
    ensures r.Some? ==> r.value < |pairs| && SameWord(ignoreCase, text, pairs[r.value].0)
    ensures r.Some? ==> forall k :: 0 <= k < r.value ==> !SameWord(ignoreCase, text, pairs[k].0)
    ensures r.None? ==> forall k :: 0 <= k < |pairs| ==> !SameWord(ignoreCase, text, pairs[k].0)
  {
    if pairs == [] then None
    else
      var front := OpenerIndex(pairs[..|pairs| - 1], ignoreCase, text);
      if front.Some? then front
      else if SameWord(ignoreCase, text, pairs[|pairs| - 1].0) then Some(|pairs| - 1)
      else None
  }

  predicate ClosesSome(pairs: Pairs, ignoreCase: bool, text: string) {
    exists k :: 0 <= k < |pairs| && SameWord(ignoreCase, text, pairs[k].1)
  }

  function Word(pairs: Pairs, ignoreCase: bool, t: Token): Delim {
    if IsTrivia(t) then Neutral
    else
      var k := OpenerIndex(pairs, ignoreCase, t.text);
      if k.Some? then Opens(pairs[k.value].1)
      else if ClosesSome(pairs, ignoreCase, t.text) then Closes(t.text)
      else Neutral
  }

  function Words(pairs: Pairs, ignoreCase: bool, tokens: seq<Token>): seq<Delim> {
    seq(|tokens|, i requires 0 <= i < |tokens| => Word(pairs, ignoreCase, tokens[i]))
  }

  function ByCase(ignoreCase: bool): Fits {
    (text, want) => SameWord(ignoreCase, text, want)
  }

  // ---- one opener

  method MatchingClose(tokens: seq<Token>, open: nat) returns (r: Option<nat>)
    ensures r == Match(Brackets(tokens), Exact(), open)
  {
    if open >= |tokens| || CloserFor(tokens[open].text).None? || IsTrivia(tokens[open]) {
      return None;
    }
    var stack: seq<string> := [];
    ghost var ds := Brackets(tokens);
    for i := open to |tokens|
      invariant Match(ds, Exact(), open) == Close(ds, Exact(), i, stack)
    {
      var t := tokens[i];
      if IsTrivia(t) {
        continue;
      }
      var c := CloserFor(t.text);
      if c.Some? {
        stack := stack + [c.value];
      } else if IsCloser(t.text) {
        if stack == [] || stack[|stack| - 1] != t.text {
          return None;
        }
        stack := stack[..|stack| - 1];
        if stack == [] {
          return Some(i);
        }
      }
    }
    return None;
  }

  method KeywordBlock(tokens: seq<Token>, open: nat, pairs: Pairs, ignoreCase: bool) returns (r: Option<nat>)
    ensures r == Match(Words(pairs, ignoreCase, tokens), ByCase(ignoreCase), open)
  {
    if open >= |tokens| || IsTrivia(tokens[open]) || OpenerIndex(pairs, ignoreCase, tokens[open].text).None? {
      return None;
    }
    var stack: seq<string> := [];
    ghost var ds := Words(pairs, ignoreCase, tokens);
    for i := open to |tokens|
      invariant Match(ds, ByCase(ignoreCase), open) == Close(ds, ByCase(ignoreCase), i, stack)
    {
      var t := tokens[i];
      if IsTrivia(t) {
        continue;
      }
      var k := OpenerIndex(pairs, ignoreCase, t.text);
      if k.Some? {
        stack := stack + [pairs[k.value].1];
      } else if ClosesSome(pairs, ignoreCase, t.text) {
        if stack == [] || !SameWord(ignoreCase, t.text, stack[|stack| - 1]) {
          return None;
        }
        stack := stack[..|stack| - 1];
        if stack == [] {
          return Some(i);
        }
      }
    }
    return None;
  }

  // ---- every opener

  /** One token of the `close_table` pass. */
  method CloseStep(tokens: seq<Token>, i: nat, stack: seq<(nat, string)>, out: seq<Option<nat>>)
    returns (stack': seq<(nat, string)>, out': seq<Option<nat>>)
    requires i < |tokens| && forall p :: 0 <= p < |stack| ==> stack[p].0 < |out|
    ensures stack' == NextStack(Bracket(tokens[i]), Exact(), i, stack)
    ensures out' == NextOut(Bracket(tokens[i]), Exact(), i, stack, out)
  {
    stack', out' := stack, out;
    var t := tokens[i];
    if IsTrivia(t) {
      return;
    }
    var c := CloserFor(t.text);
    if c.Some? {
      stack' := stack + [(i, c.value)];
    } else if IsCloser(t.text) {
      if stack != [] && stack[|stack| - 1].1 == t.text {
        out' := out[stack[|stack| - 1].0 := Some(i)];
        stack' := stack[..|stack| - 1];
      } else {
        stack' := [];
      }
    }
  }

  /** `close_table(tokens)[i] == matching_close(tokens, i)` at every index. */
  method CloseTable(tokens: seq<Token>) returns (out: seq<Option<nat>>)
    ensures |out| == |tokens|
    ensures forall i :: 0 <= i < |tokens| ==> out[i] == Match(Brackets(tokens), Exact(), i)
  {
    out := seq(|tokens|, _ => None);
    var stack: seq<(nat, string)> := [];
    ghost var ds := Brackets(tokens);
    for i := 0 to |tokens|
      invariant Tabled(ds, Exact(), i, stack, out)
    {
      TableStep(ds, Exact(), i, stack, out);
      stack, out := CloseStep(tokens, i, stack, out);
    }
    TableDone(ds, Exact(), stack, out);
  }

  /** The stack of `keyword_close_table` holds pair indices; this is what they want. */
  ghost function Resolved(pairs: Pairs, stack: seq<(nat, nat)>): seq<(nat, string)>
    requires forall p :: 0 <= p < |stack| ==> stack[p].1 < |pairs|
  {
    seq(|stack|, p requires 0 <= p < |stack| => (stack[p].0, pairs[stack[p].1].1))
  }

  /** One token of the `keyword_close_table` pass. */
  method KeywordCloseStep(tokens: seq<Token>, pairs: Pairs, ignoreCase: bool, i: nat, stack: seq<(nat, nat)>, out: seq<Option<nat>>)
    returns (stack': seq<(nat, nat)>, out': seq<Option<nat>>)
    requires i < |tokens| == |out| && forall p :: 0 <= p < |stack| ==> stack[p].0 < |out| && stack[p].1 < |pairs|
    ensures forall p :: 0 <= p < |stack'| ==> stack'[p].0 < |out| && stack'[p].1 < |pairs|
    ensures Resolved(pairs, stack') == NextStack(Word(pairs, ignoreCase, tokens[i]), ByCase(ignoreCase), i, Resolved(pairs, stack))
    ensures out' == NextOut(Word(pairs, ignoreCase, tokens[i]), ByCase(ignoreCase), i, Resolved(pairs, stack), out)
  {
    stack', out' := stack, out;
    var t := tokens[i];
    if IsTrivia(t) {
      return;
    }
    var k := OpenerIndex(pairs, ignoreCase, t.text);
    if k.Some? {
      stack' := stack + [(i, k.value)];
    } else if ClosesSome(pairs, ignoreCase, t.text) {
      if stack != [] && SameWord(ignoreCase, t.text, pairs[stack[|stack| - 1].1].1) {
        out' := out[stack[|stack| - 1].0 := Some(i)];
        stack' := stack[..|stack| - 1];
      } else {
        stack' := [];
      }
    }
  }

  /** The pass stands before token `i` with these pairs open. */
  ghost predicate PairsOpen(pairs: Pairs, n: nat, stack: seq<(nat, nat)>) {
    forall p :: 0 <= p < |stack| ==> stack[p].0 < n && stack[p].1 < |pairs|
  }

  method KeywordCloseAt(tokens: seq<Token>, pairs: Pairs, ignoreCase: bool, i: nat, stack: seq<(nat, nat)>, out: seq<Option<nat>>,
                        ghost ds: seq<Delim>, ghost fits: Fits)
    returns (stack': seq<(nat, nat)>, out': seq<Option<nat>>)
    requires ds == Words(pairs, ignoreCase, tokens) && fits == ByCase(ignoreCase) && i < |tokens|
    requires PairsOpen(pairs, |tokens|, stack) && Tabled(ds, fits, i, Resolved(pairs, stack), out)
    ensures PairsOpen(pairs, |tokens|, stack') && Tabled(ds, fits, i + 1, Resolved(pairs, stack'), out')
  {
    TableStep(ds, fits, i, Resolved(pairs, stack), out);
    stack', out' := KeywordCloseStep(tokens, pairs, ignoreCase, i, stack, out);
  }

  /** `keyword_close_table(tokens, pairs)[i] == keyword_block(tokens, i, pairs)` at every
      index, for every list of pairs and in both case modes. */
  method KeywordCloseTable(tokens: seq<Token>, pairs: Pairs, ignoreCase: bool) returns (out: seq<Option<nat>>)
    ensures |out| == |tokens|
    ensures forall i :: 0 <= i < |tokens| ==> out[i] == Match(Words(pairs, ignoreCase, tokens), ByCase(ignoreCase), i)
  {
    out := seq(|tokens|, _ => None);
    var stack: seq<(nat, nat)> := [];
    ghost var ds, fits := Words(pairs, ignoreCase, tokens), ByCase(ignoreCase);
    assert Resolved(pairs, stack) == [];
    for i := 0 to |tokens|
      invariant PairsOpen(pairs, |tokens|, stack) && Tabled(ds, fits, i, Resolved(pairs, stack), out)
    {
      stack, out := KeywordCloseAt(tokens, pairs, ignoreCase, i, stack, out, ds, fits);
    }
    TableDone(ds, fits, Resolved(pairs, stack), out);
  }

  // ---- by code position

  predicate Sorted(code: seq<nat>) {
    forall i, j :: 0 <= i < j < |code| ==> code[i] <= code[j]
  }

  /** What `slice::binary_search(..).ok()` may answer on a sorted list: any position of `x`, and
      nothing only when there is none. */
  predicate MayFind(code: seq<nat>, x: nat, r: Option<nat>) {
    if r.Some? then r.value < |code| && code[r.value] == x else x !in code
  }

  /** A search that halves the range. */
  function BinarySearch(code: seq<nat>, x: nat, lo: nat, hi: nat): Option<nat>
    requires lo <= hi <= |code|
    decreases hi - lo
  {
    if lo == hi then None
    else
      var mid := lo + (hi - lo) / 2;
      if code[mid] == x then Some(mid)
      else if code[mid] < x then BinarySearch(code, x, mid + 1, hi)
      else BinarySearch(code, x, lo, mid)
  }

  lemma {:induction false} BinarySearchFinds(code: seq<nat>, x: nat, lo: nat, hi: nat)
    requires Sorted(code) && lo <= hi <= |code|
    ensures var r := BinarySearch(code, x, lo, hi);
            if r.Some? then lo <= r.value < hi && code[r.value] == x else forall p :: lo <= p < hi ==> code[p] != x
    decreases hi - lo
  {
    if lo == hi {
    } else {
      var mid := lo + (hi - lo) / 2;
      if code[mid] < x {
        BinarySearchFinds(code, x, mid + 1, hi);
      } else if code[mid] > x {
        BinarySearchFinds(code, x, lo, mid);
      }
    }
  }

  /** It is one of those a sorted list allows. */
  lemma BinarySearchMayFind(code: seq<nat>, x: nat)
    requires Sorted(code)
    ensures MayFind(code, x, BinarySearch(code, x, 0, |code|))
  {
    BinarySearchFinds(code, x, 0, |code|);
  }

  /** The last of the first `n` positions that lists `x`. */
  function LastListed(code: seq<nat>, n: nat, x: nat): (r: Option<nat>)
    requires n <= |code|
    ensures r.Some? ==> r.value < n && code[r.value] == x && forall p :: r.value < p < n ==> code[p] != x
    ensures r.None? ==> forall p :: 0 <= p < n ==> code[p] != x
  {
    if n == 0 then None else if code[n - 1] == x then Some(n - 1) else LastListed(code, n - 1, x)
  }

  /** The position of each token in `code`, the last one if it is listed twice. */
  method Positions(n: nat, code: seq<nat>) returns (pos: seq<Option<nat>>)
    requires forall c :: 0 <= c < |code| ==> code[c] < n
    ensures |pos| == n
    ensures forall i :: 0 <= i < n ==> pos[i] == LastListed(code, |code|, i)
  {
    pos := seq(n, _ => None);
    for c := 0 to |code|
      invariant |pos| == n
      invariant forall i :: 0 <= i < n ==> pos[i] == LastListed(code, c, i)
    {
      pos := pos[code[c] := Some(c)];
    }
  }

  predicate ListedOnce(code: seq<nat>, x: nat) {
    forall p, q :: 0 <= p < |code| && 0 <= q < |code| && code[p] == x && code[q] == x ==> p == q
  }

  /** The last position is always an answer a search may give, and the only one exactly when the
      token is listed at most once. */
  lemma LastIsFound(code: seq<nat>, x: nat)
    ensures MayFind(code, x, LastListed(code, |code|, x))
    ensures (forall r :: MayFind(code, x, r) ==> r == LastListed(code, |code|, x)) <==> ListedOnce(code, x)
  {
    var last := LastListed(code, |code|, x);
    if forall r :: MayFind(code, x, r) ==> r == last {
      forall p, q | 0 <= p < |code| && 0 <= q < |code| && code[p] == x && code[q] == x
        ensures p == q
      {
        assert MayFind(code, x, Some(p)) && MayFind(code, x, Some(q));
      }
    }
  }

  /** The entry of `code_close_table` for token `i`: its closer's last position in `code`. */
  function Listed(tokens: seq<Token>, code: seq<nat>, i: nat): Option<nat> {
    var close := Match(Brackets(tokens), Exact(), i);
    if close.None? then None else LastListed(code, |code|, close.value)
  }

  /** What `code_close_table` promises of that entry: look the closer up, then search it. */
  predicate LookedUp(tokens: seq<Token>, code: seq<nat>, i: nat, r: Option<nat>) {
    var close := Match(Brackets(tokens), Exact(), i);
    if close.None? then r.None? else MayFind(code, close.value, r)
  }

  predicate CloserListedOnce(tokens: seq<Token>, code: seq<nat>, i: nat) {
    var close := Match(Brackets(tokens), Exact(), i);
    close.Some? ==> ListedOnce(code, close.value)
  }

  /** For every `code`, sorted or not, with repeats or without. */
  method CodeCloseTable(tokens: seq<Token>, code: seq<nat>) returns (out: seq<Option<nat>>)
    requires forall c :: 0 <= c < |code| ==> code[c] < |tokens|
    ensures |out| == |code|
    ensures forall c :: 0 <= c < |code| ==> out[c] == Listed(tokens, code, code[c])
  {
    var table := CloseTable(tokens);
    var pos := Positions(|tokens|, code);
    out := [];
    for c := 0 to |code|
      invariant |out| == c
      invariant forall k :: 0 <= k < c ==> out[k] == Listed(tokens, code, code[k])
    {
      var close := table[code[c]];
      if close.Some? {
        MatchIsBalanced(Brackets(tokens), Exact(), code[c], close.value);
        out := out + [pos[close.value]];
      } else {
        out := out + [None];
      }
    }
  }

  /** Each entry is an answer that looking the closer up and searching it may give, and the only
      such answer exactly when the closer is listed at most once. */
  lemma ListedIsLookedUp(tokens: seq<Token>, code: seq<nat>, i: nat)
    ensures LookedUp(tokens, code, i, Listed(tokens, code, i))
    ensures (forall r :: LookedUp(tokens, code, i, r) ==> r == Listed(tokens, code, i)) <==> CloserListedOnce(tokens, code, i)
  {
    var close := Match(Brackets(tokens), Exact(), i);
    if close.Some? {
      LastIsFound(code, close.value);
      assert forall r :: LookedUp(tokens, code, i, r) <==> MayFind(code, close.value, r);
    }
  }

  /** With the closer listed twice the table and a search part: `(` `)` under [0, 1, 1]. */
  lemma RepeatedCloserParts()
    ensures var tokens, code := [Token("(", Punctuation), Token(")", Punctuation)], [0, 1, 1];
            && Sorted(code) && !CloserListedOnce(tokens, code, 0)
            && Listed(tokens, code, 0) == Some(2)
            && BinarySearch(code, 1, 0, 3) == Some(1) && LookedUp(tokens, code, 0, Some(1))
  {
    var tokens, code := [Token("(", Punctuation), Token(")", Punctuation)], [0, 1, 1];
    var ds := Brackets(tokens);
    assert Close(ds, Exact(), 0, []) == Close(ds, Exact(), 1, [")"]);
    assert Match(ds, Exact(), 0) == Some(1);
    assert code[1] == 1 && code[2] == 1;
  }

  // ---- the cursor

  function NextCode(tokens: seq<Token>, pos: nat): (r: Option<nat>)
    ensures r.Some? ==> pos <= r.value < |tokens|
    decreases |tokens| - pos
  {
    if pos >= |tokens| then None else if tokens[pos].kind.Comment? then NextCode(tokens, pos + 1) else Some(pos)
  }

  /** The group at the cursor, if the next code token opens one that closes. */
  function GroupAt(tokens: seq<Token>, pos: nat): Option<(nat, nat)> {
    var open := NextCode(tokens, pos);
    if open.None? then None
    else
      var close := Match(Brackets(tokens), Exact(), open.value);
      if close.None? then None else Some((open.value, close.value))
  }

  class Cursor {
    const tokens: seq<Token>
    var pos: nat

    constructor (ts: seq<Token>)
      ensures tokens == ts && pos == 0
    {
      tokens, pos := ts, 0;
    }

    method PeekCode() returns (r: Option<nat>)
      ensures r == NextCode(tokens, pos)
    {
      var i := pos;
      while i < |tokens| && tokens[i].kind.Comment?
        invariant NextCode(tokens, pos) == NextCode(tokens, i)
      {
        i := i + 1;
      }
      r := if i < |tokens| then Some(i) else None;
    }

    method SkipBalanced() returns (r: Option<(nat, nat)>)
      modifies this
      ensures r == GroupAt(tokens, old(pos))
      ensures pos == if r.Some? then r.value.1 + 1 else old(pos)
    {
      var open := PeekCode();
      if open.None? {
        return None;
      }
      var close := MatchingClose(tokens, open.value);
      if close.None? {
        return None;
      }
      pos := close.value + 1;
      return Some((open.value, close.value));
    }

    /** With the closers looked up in a table: the same moves. */
    method SkipBalancedWith(table: seq<Option<nat>>) returns (r: Option<(nat, nat)>)
      requires |table| == |tokens| && forall i :: 0 <= i < |tokens| ==> table[i] == Match(Brackets(tokens), Exact(), i)
      modifies this
      ensures r == GroupAt(tokens, old(pos))
      ensures pos == if r.Some? then r.value.1 + 1 else old(pos)
    {
      var open := PeekCode();
      if open.None? || table[open.value].None? {
        return None;
      }
      pos := table[open.value].value + 1;
      return Some((open.value, table[open.value].value));
    }
  }
}
