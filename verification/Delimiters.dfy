/**
 Matching delimiters in a token stream, whatever the delimiters are: a scan from one
 opener with a stack of wanted closers, and the grammar it recognises. Brackets
 and keyword blocks (module `Scans`) are two instances.
 */
module Delimiters {
  import opened Options

  /** What a token is to the matcher; `want` is the closer an opener waits for. */
  datatype Delim = Neutral | Opens(want: string) | Closes(text: string)

  /** Whether a closer's text is the wanted one. */
  type Fits = (string, string) -> bool

  /** The scan from position `i` with `stack` wanted: where its bottom closes. */
  function Close(ds: seq<Delim>, fits: Fits, i: nat, stack: seq<string>): Option<nat>
    decreases |ds| - i
  {
    if i >= |ds| then None
    else
      match ds[i]
      case Neutral => Close(ds, fits, i + 1, stack)
      case Opens(want) => Close(ds, fits, i + 1, stack + [want])
      case Closes(text) =>
        if stack == [] || !fits(text, stack[|stack| - 1]) then None
        else if |stack| == 1 then Some(i)
        else Close(ds, fits, i + 1, stack[..|stack| - 1])
  }

  /** The index closing the delimiter at `open`. */
  function Match(ds: seq<Delim>, fits: Fits, open: nat): Option<nat> {
    if open < |ds| && ds[open].Opens? then Close(ds, fits, open, []) else None
  }

  // ---- the grammar

  /** A derivation of a balanced word. */
  datatype Forest = Nil | Node(want: string, inner: Forest, text: string, rest: Forest)

  predicate WellMatched(fits: Fits, f: Forest) {
    f.Nil? || (fits(f.text, f.want) && WellMatched(fits, f.inner) && WellMatched(fits, f.rest))
  }

  function Word(f: Forest): seq<Delim> {
    if f.Nil? then [] else [Opens(f.want)] + Word(f.inner) + [Closes(f.text)] + Word(f.rest)
  }

  /** The delimiters of a stretch of tokens. */
  function Strip(ds: seq<Delim>): seq<Delim> {
    if ds == [] then []
    else Strip(ds[..|ds| - 1]) + if ds[|ds| - 1].Neutral? then [] else [ds[|ds| - 1]]
  }

  ghost predicate Balanced(fits: Fits, ds: seq<Delim>) {
    exists f :: WellMatched(fits, f) && Word(f) == Strip(ds)
  }

  // ---- the stack machine between the two

  /** The stack after one token, or nothing if it is a closer that does not fit. */
  function Push(d: Delim, fits: Fits, st: seq<string>): Option<seq<string>> {
    match d
    case Neutral => Some(st)
    case Opens(want) => Some(st + [want])
    case Closes(text) => if st == [] || !fits(text, st[|st| - 1]) then None else Some(st[..|st| - 1])
  }

  /** The stack after a stretch of tokens. */
  function Stack(ds: seq<Delim>, fits: Fits, stack: seq<string>): Option<seq<string>> {
    if ds == [] then Some(stack)
    else
      var st := Stack(ds[..|ds| - 1], fits, stack);
      if st.None? then None else Push(ds[|ds| - 1], fits, st.value)
  }

  lemma {:induction false} StackConcat(a: seq<Delim>, b: seq<Delim>, fits: Fits, stack: seq<string>)
    ensures Stack(a + b, fits, stack)
            == if Stack(a, fits, stack).None? then None else Stack(b, fits, Stack(a, fits, stack).value)
  {
    if b == [] {
      assert a + b == a;
    } else {
      assert (a + b)[..|a + b| - 1] == a + b[..|b| - 1];
      StackConcat(a, b[..|b| - 1], fits, stack);
    }
  }

  lemma StackOne(d: Delim, fits: Fits, stack: seq<string>)
    ensures Stack([d], fits, stack) == Push(d, fits, stack)
  {
    assert [d][..0] == [];
  }

  /** A balanced word leaves any stack as it was. */
  lemma {:induction false} StackOfWord(f: Forest, fits: Fits, stack: seq<string>)
    requires WellMatched(fits, f)
    ensures Stack(Word(f), fits, stack) == Some(stack)
  {
    if f.Node? {
      var o, c := [Opens(f.want)], [Closes(f.text)];
      StackConcat(o + Word(f.inner) + c, Word(f.rest), fits, stack);
      StackConcat(o + Word(f.inner), c, fits, stack);
      StackConcat(o, Word(f.inner), fits, stack);
      StackOne(o[0], fits, stack);
      StackOfWord(f.inner, fits, stack + [f.want]);
      StackOne(c[0], fits, stack + [f.want]);
      assert (stack + [f.want])[..|stack|] == stack;
      StackOfWord(f.rest, fits, stack);
    }
  }

  lemma {:induction false} StackStrip(ds: seq<Delim>, fits: Fits, stack: seq<string>)
    ensures Stack(Strip(ds), fits, stack) == Stack(ds, fits, stack)
  {
    if ds == [] {
    } else {
      var front, last := ds[..|ds| - 1], ds[|ds| - 1];
      StackStrip(front, fits, stack);
      if last.Neutral? {
        assert Strip(ds) == Strip(front);
      } else {
        assert Strip(ds)[..|Strip(ds)| - 1] == Strip(front);
      }
    }
  }

  function Append(f: Forest, g: Forest): Forest {
    if f.Nil? then g else f.(rest := Append(f.rest, g))
  }

  lemma {:induction false} AppendWord(f: Forest, g: Forest, fits: Fits)
    ensures Word(Append(f, g)) == Word(f) + Word(g)
    ensures WellMatched(fits, f) && WellMatched(fits, g) ==> WellMatched(fits, Append(f, g))
  {
    if f.Node? {
      AppendWord(f.rest, g, fits);
    }
  }

  /** Balanced words with the still open delimiters between them. */
  function Spine(fs: seq<Forest>, st: seq<string>): seq<Delim>
    requires |fs| == |st| + 1
  {
    if st == [] then Word(fs[0])
    else Spine(fs[..|fs| - 1], st[..|st| - 1]) + [Opens(st[|st| - 1])] + Word(fs[|fs| - 1])
  }

  predicate AllMatched(fits: Fits, fs: seq<Forest>) {
    forall k :: 0 <= k < |fs| ==> WellMatched(fits, fs[k])
  }

  /** The last balanced word of a spine grows. */
  lemma SpineGrows(fs: seq<Forest>, st: seq<string>, g: Forest, fits: Fits)
    requires |fs| == |st| + 1 && AllMatched(fits, fs) && WellMatched(fits, g)
    ensures var fs' := fs[|fs| - 1 := Append(fs[|fs| - 1], g)];
            Spine(fs', st) == Spine(fs, st) + Word(g) && AllMatched(fits, fs')
  {
    var n := |fs| - 1;
    var fs' := fs[n := Append(fs[n], g)];
    AppendWord(fs[n], g, fits);
    assert fs'[..n] == fs[..n];
  }

  lemma SpineOpens(fs: seq<Forest>, st: seq<string>, want: string)
    requires |fs| == |st| + 1
    ensures Spine(fs + [Nil], st + [want]) == Spine(fs, st) + [Opens(want)]
  {
    assert (fs + [Nil])[..|fs|] == fs && (st + [want])[..|st|] == st;
  }

  /** Closing the last open delimiter makes a node of the word inside it. */
  lemma SpineCloses(fs: seq<Forest>, st: seq<string>, text: string, fits: Fits) returns (gs: seq<Forest>)
    requires |fs| == |st| + 1 && AllMatched(fits, fs) && st != [] && fits(text, st[|st| - 1])
    ensures |gs| == |st| && AllMatched(fits, gs)
    ensures Spine(gs, st[..|st| - 1]) == Spine(fs, st) + [Closes(text)]
  {
    var n := |st| - 1;
    var inner, below := fs[n + 1], fs[..n + 1];
    var g := Node(st[n], inner, text, Nil);
    SpineGrows(below, st[..n], g, fits);
    assert Word(g) == [Opens(st[n])] + Word(inner) + [Closes(text)];
    gs := below[n := Append(below[n], g)];
  }

  /** One more token takes a spine to a spine. */
  lemma SpineReads(d: Delim, fits: Fits, fs: seq<Forest>, st: seq<string>, st': seq<string>) returns (gs: seq<Forest>)
    requires |fs| == |st| + 1 && AllMatched(fits, fs) && Push(d, fits, st) == Some(st')
    ensures |gs| == |st'| + 1 && AllMatched(fits, gs)
    ensures Spine(gs, st') == Spine(fs, st) + if d.Neutral? then [] else [d]
  {
    match d
    case Neutral =>
      gs := fs;
    case Opens(want) =>
      SpineOpens(fs, st, want);
      gs := fs + [Nil];
    case Closes(text) =>
      gs := SpineCloses(fs, st, text, fits);
  }

  /** What the machine has read is a spine over its stack. */
  lemma {:induction false} ReadIsSpine(ds: seq<Delim>, fits: Fits, st: seq<string>) returns (fs: seq<Forest>)
    requires Stack(ds, fits, []) == Some(st)
    ensures |fs| == |st| + 1 && AllMatched(fits, fs) && Spine(fs, st) == Strip(ds)
  {
    if ds == [] {
      fs := [Nil];
    } else {
      var front := ds[..|ds| - 1];
      var below := Stack(front, fits, []).value;
      fs := ReadIsSpine(front, fits, below);
      fs := SpineReads(ds[|ds| - 1], fits, fs, below, st);
    }
  }

  /** The machine returns to the empty stack exactly on the balanced words. */
  lemma EmptyStackIsBalanced(ds: seq<Delim>, fits: Fits)
    ensures Stack(ds, fits, []) == Some([]) <==> Balanced(fits, ds)
  {
    if Stack(ds, fits, []) == Some([]) {
      var fs := ReadIsSpine(ds, fits, []);
      assert WellMatched(fits, fs[0]) && Word(fs[0]) == Strip(ds);
    }
    if f :| WellMatched(fits, f) && Word(f) == Strip(ds) {
      StackOfWord(f, fits, []);
      StackStrip(ds, fits, []);
    }
  }

  // ---- the scan

  /** The scan from an opener, part of the way: it answers `j` exactly if what lies between
      the opener and `j` is balanced and `j` closes it. */
  lemma {:induction false} CloseFrom(ds: seq<Delim>, fits: Fits, open: nat, i: nat, st: seq<string>, j: nat)
    requires open < i <= |ds| && ds[open].Opens? && Stack(ds[open + 1..i], fits, []) == Some(st)
    ensures Close(ds, fits, i, [ds[open].want] + st) == Some(j)
            <==> i <= j < |ds| && ds[j].Closes? && fits(ds[j].text, ds[open].want) && Stack(ds[open + 1..j], fits, []) == Some([])
    decreases |ds| - i
  {
    if i < |ds| {
      var seen, all := ds[open + 1..i], [ds[open].want] + st;
      assert ds[open + 1..i + 1] == seen + [ds[i]];
      assert ds[open + 1..i + 1][..|seen|] == seen;
      StackConcat(seen, [ds[i]], fits, []);
      StackOne(ds[i], fits, st);
      var next := Stack(ds[open + 1..i + 1], fits, []);
      if next.Some? {
        CloseFrom(ds, fits, open, i + 1, next.value, j);
        assert ds[i].Opens? ==> all + [ds[i].want] == [ds[open].want] + next.value;
        assert ds[i].Closes? ==> all[..|all| - 1] == [ds[open].want] + next.value;
      } else if i < j < |ds| {
        assert ds[open + 1..j] == ds[open + 1..i + 1] + ds[i + 1..j];
        StackConcat(ds[open + 1..i + 1], ds[i + 1..j], fits, []);
      }
    }
  }

  /** `matching_close` in full: the answer is `j` exactly when the delimiters from
      `open` to `j` are one opener, a balanced word and the closer that fits it. */
  lemma MatchIsBalanced(ds: seq<Delim>, fits: Fits, open: nat, j: nat)
    ensures Match(ds, fits, open) == Some(j)
            <==> open < j < |ds| && ds[open].Opens? && ds[j].Closes? && fits(ds[j].text, ds[open].want)
                 && Balanced(fits, ds[open + 1..j])
  {
    if open < |ds| && ds[open].Opens? {
      assert ds[open + 1..open + 1] == [];
      assert [] + [ds[open].want] == [ds[open].want] + [];
      CloseFrom(ds, fits, open, open + 1, [], j);
      if open < j < |ds| {
        EmptyStackIsBalanced(ds[open + 1..j], fits);
      }
    }
  }

  /** No two indices fit the description. */
  lemma CloserIsUnique(ds: seq<Delim>, fits: Fits, open: nat, j: nat, k: nat)
    requires open < j < |ds| && open < k < |ds| && ds[open].Opens?
    requires ds[j].Closes? && fits(ds[j].text, ds[open].want) && Balanced(fits, ds[open + 1..j])
    requires ds[k].Closes? && fits(ds[k].text, ds[open].want) && Balanced(fits, ds[open + 1..k])
    ensures j == k
  {
    MatchIsBalanced(ds, fits, open, j);
    MatchIsBalanced(ds, fits, open, k);
  }

  // ---- all openers in one pass

  function Wants(stack: seq<(nat, string)>): seq<string> {
    seq(|stack|, k requires 0 <= k < |stack| => stack[k].1)
  }

  predicate OnStack(stack: seq<(nat, string)>, o: nat) {
    exists p :: 0 <= p < |stack| && stack[p].0 == o
  }

  /** The openers on the stack: the scan from each would be at `i`, with the openers
      above it wanted. */
  ghost predicate Pending(ds: seq<Delim>, fits: Fits, i: nat, stack: seq<(nat, string)>) {
    && (forall p :: 0 <= p < |stack| ==> stack[p].0 < i)
    && (forall p, q :: 0 <= p < q < |stack| ==> stack[p].0 < stack[q].0)
    && (forall p :: 0 <= p < |stack| ==> Match(ds, fits, stack[p].0) == Close(ds, fits, i, Wants(stack[p..])))
  }

  /** The other openers have their answer; nothing is written for the ones to come. */
  ghost predicate Settled(ds: seq<Delim>, fits: Fits, i: nat, stack: seq<(nat, string)>, out: seq<Option<nat>>) {
    && |out| == |ds|
    && (forall o :: 0 <= o < |ds| && (i <= o || OnStack(stack, o)) ==> out[o] == None)
    && (forall o :: 0 <= o < i && o < |ds| && !OnStack(stack, o) ==> out[o] == Match(ds, fits, o))
  }

  ghost predicate Tabled(ds: seq<Delim>, fits: Fits, i: nat, stack: seq<(nat, string)>, out: seq<Option<nat>>) {
    Pending(ds, fits, i, stack) && Settled(ds, fits, i, stack, out)
  }

  lemma TableDone(ds: seq<Delim>, fits: Fits, stack: seq<(nat, string)>, out: seq<Option<nat>>)
    requires Tabled(ds, fits, |ds|, stack, out)
    ensures forall o :: 0 <= o < |ds| ==> out[o] == Match(ds, fits, o)
  {
    forall o | 0 <= o < |ds|
      ensures out[o] == Match(ds, fits, o)
    {
      if p :| 0 <= p < |stack| && stack[p].0 == o {
        assert OnStack(stack, o);
      }
    }
  }

  lemma TableNeutral(ds: seq<Delim>, fits: Fits, i: nat, stack: seq<(nat, string)>, out: seq<Option<nat>>)
    requires Tabled(ds, fits, i, stack, out) && i < |ds| && ds[i].Neutral?
    ensures Tabled(ds, fits, i + 1, stack, out)
  {
  }

  lemma TablePush(ds: seq<Delim>, fits: Fits, i: nat, stack: seq<(nat, string)>, out: seq<Option<nat>>)
    requires Tabled(ds, fits, i, stack, out) && i < |ds| && ds[i].Opens?
    ensures Tabled(ds, fits, i + 1, stack + [(i, ds[i].want)], out)
  {
    var pushed := stack + [(i, ds[i].want)];
    forall p | 0 <= p < |pushed|
      ensures Match(ds, fits, pushed[p].0) == Close(ds, fits, i + 1, Wants(pushed[p..]))
    {
      assert Wants(pushed[p..]) == Wants(stack[p..]) + [ds[i].want];
      if p == |stack| {
        assert Wants(stack[p..]) == [];
      }
    }
    assert pushed[|stack|].0 == i;
    forall o | 0 <= o < |ds|
      ensures OnStack(pushed, o) <==> OnStack(stack, o) || o == i
    {
      if p :| 0 <= p < |stack| && stack[p].0 == o {
        assert pushed[p].0 == o;
      }
    }
  }

  /** Below the top, a closer that fits takes each scan one want down. */
  lemma PendingPop(ds: seq<Delim>, fits: Fits, i: nat, stack: seq<(nat, string)>)
    requires Pending(ds, fits, i, stack) && i < |ds| && ds[i].Closes?
    requires stack != [] && fits(ds[i].text, stack[|stack| - 1].1)
    ensures Pending(ds, fits, i + 1, stack[..|stack| - 1])
    ensures Match(ds, fits, stack[|stack| - 1].0) == Some(i)
  {
    var n := |stack| - 1;
    assert Wants(stack[n..]) == [stack[n].1];
    forall p | 0 <= p < n
      ensures Match(ds, fits, stack[p].0) == Close(ds, fits, i + 1, Wants(stack[..n][p..]))
    {
      var ws := Wants(stack[p..]);
      assert ws[|ws| - 1] == stack[n].1;
      assert ws[..|ws| - 1] == Wants(stack[..n][p..]);
    }
  }

  /** A closer that fits settles the top of the stack. */
  lemma TablePop(ds: seq<Delim>, fits: Fits, i: nat, stack: seq<(nat, string)>, out: seq<Option<nat>>)
    requires Tabled(ds, fits, i, stack, out) && i < |ds| && ds[i].Closes?
    requires stack != [] && fits(ds[i].text, stack[|stack| - 1].1)
    ensures Tabled(ds, fits, i + 1, stack[..|stack| - 1], out[stack[|stack| - 1].0 := Some(i)])
  {
    PendingPop(ds, fits, i, stack);
    var n := |stack| - 1;
    forall o | 0 <= o < |ds|
      ensures OnStack(stack[..n], o) <==> OnStack(stack, o) && o != stack[n].0
    {
      if p :| 0 <= p < |stack| && stack[p].0 == o && p < n {
        assert stack[..n][p].0 == o;
      }
    }
  }

  /** A closer that does not fit, or that nothing waits for, ends every open scan. */
  lemma TableClear(ds: seq<Delim>, fits: Fits, i: nat, stack: seq<(nat, string)>, out: seq<Option<nat>>)
    requires Tabled(ds, fits, i, stack, out) && i < |ds| && ds[i].Closes?
    requires stack == [] || !fits(ds[i].text, stack[|stack| - 1].1)
    ensures Tabled(ds, fits, i + 1, [], out)
  {
    forall o | 0 <= o < i + 1
      ensures out[o] == Match(ds, fits, o)
    {
      if p :| 0 <= p < |stack| && stack[p].0 == o {
        var ws := Wants(stack[p..]);
        assert ws[|ws| - 1] == stack[|stack| - 1].1;
        assert OnStack(stack, o);
      }
    }
  }

  predicate Fitting(d: Delim, fits: Fits, stack: seq<(nat, string)>) {
    d.Closes? && stack != [] && fits(d.text, stack[|stack| - 1].1)
  }

  function NextStack(d: Delim, fits: Fits, i: nat, stack: seq<(nat, string)>): seq<(nat, string)> {
    match d
    case Neutral => stack
    case Opens(want) => stack + [(i, want)]
    case Closes(_) => if Fitting(d, fits, stack) then stack[..|stack| - 1] else []
  }

  function NextOut(d: Delim, fits: Fits, i: nat, stack: seq<(nat, string)>, out: seq<Option<nat>>): seq<Option<nat>>
    requires forall p :: 0 <= p < |stack| ==> stack[p].0 < |out|
  {
    if Fitting(d, fits, stack) then out[stack[|stack| - 1].0 := Some(i)] else out
  }

  /** One token of the pass. */
  lemma TableStep(ds: seq<Delim>, fits: Fits, i: nat, stack: seq<(nat, string)>, out: seq<Option<nat>>)
    requires Tabled(ds, fits, i, stack, out) && i < |ds|
    ensures Tabled(ds, fits, i + 1, NextStack(ds[i], fits, i, stack), NextOut(ds[i], fits, i, stack, out))
  {
    match ds[i]
    case Neutral => TableNeutral(ds, fits, i, stack, out);
    case Opens(_) => TablePush(ds, fits, i, stack, out);
    case Closes(_) =>
      if Fitting(ds[i], fits, stack) {
        TablePop(ds, fits, i, stack, out);
      } else {
        TableClear(ds, fits, i, stack, out);
      }
  }
}
