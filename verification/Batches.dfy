/**
 The fixed batches of `--deterministic` (crates/graph-cli/src/lib.rs), as a
 property of a partition, with no writer in sight: a batch closes before a file
 that would push it past 32 MiB, at 256 files or 32 MiB, and at the end.
 */
module Batches {
  const BATCH_FILES: nat := 256
  const BATCH_BYTES: nat := 32 * 1024 * 1024

  /** A prepared file: its place in the walk, the bytes read, the bytes the walk
      saw (what admission charged), and its heap footprint. */
  datatype File = File(id: nat, len: nat, size: nat, fp: nat)

  function Bytes(b: seq<File>): nat {
    if b == [] then 0 else Bytes(b[..|b| - 1]) + b[|b| - 1].len
  }

  function Concat(bs: seq<seq<File>>): seq<File> {
    if bs == [] then [] else Concat(bs[..|bs| - 1]) + bs[|bs| - 1]
  }

  /** The batch is at one of its limits. */
  predicate Full(b: seq<File>) {
    |b| >= BATCH_FILES || Bytes(b) >= BATCH_BYTES
  }

  /** `f` cannot join `b`. */
  predicate Closes(b: seq<File>, f: File) {
    Full(b) || Bytes(b) + f.len > BATCH_BYTES
  }

  /** Non-empty, and every file but the first was still allowed in. */
  predicate Filled(b: seq<File>) {
    b != [] && forall k :: 0 < k < |b| ==> !Closes(b[..k], b[k])
  }

  /** Each batch but the last is closed by the first file of the next. */
  predicate Chained(bs: seq<seq<File>>) {
    && (forall k :: 0 <= k < |bs| ==> Filled(bs[k]))
    && (forall k :: 0 < k < |bs| ==> Closes(bs[k - 1], bs[k][0]))
  }

  predicate Greedy(bs: seq<seq<File>>, files: seq<File>) {
    Concat(bs) == files && Chained(bs)
  }

  lemma BytesSnoc(b: seq<File>, f: File)
    ensures Bytes(b + [f]) == Bytes(b) + f.len
  {
    assert (b + [f])[..|b|] == b;
  }

  lemma ConcatSnoc(bs: seq<seq<File>>, b: seq<File>)
    ensures Concat(bs + [b]) == Concat(bs) + b
  {
    assert (bs + [b])[..|bs|] == bs;
  }

  lemma Reassociates(x: seq<File>, y: seq<File>, z: seq<File>)
    ensures (x + y) + z == x + (y + z)
  {
  }

  lemma {:induction false} ConcatCons(b: seq<File>, bs: seq<seq<File>>)
    ensures Concat([b] + bs) == b + Concat(bs)
  {
    var all := [b] + bs;
    if bs == [] {
      assert all[..0] == [] && all[0] == b;
    } else {
      var front, last := bs[..|bs| - 1], bs[|bs| - 1];
      assert all[..|all| - 1] == [b] + front && all[|all| - 1] == last;
      ConcatCons(b, front);
      Reassociates(b, Concat(front), last);
    }
  }

  lemma ConcatHead(bs: seq<seq<File>>)
    requires bs != []
    ensures Concat(bs) == bs[0] + Concat(bs[1..])
  {
    assert bs == [bs[0]] + bs[1..];
    ConcatCons(bs[0], bs[1..]);
  }

  /** What follows the first batch is a file that could not join it. */
  lemma NextFileCloses(bs: seq<seq<File>>)
    requires Chained(bs) && bs != [] && |bs[0]| < |Concat(bs)|
    ensures Closes(bs[0], Concat(bs)[|bs[0]|])
  {
    ConcatHead(bs);
    ConcatHead(bs[1..]);
  }

  /** Two greedy partitions of one list start with the same batch. */
  lemma FirstBatchesAgree(xs: seq<seq<File>>, ys: seq<seq<File>>)
    requires xs != [] && ys != [] && Chained(xs) && Chained(ys) && Concat(xs) == Concat(ys)
    requires |xs[0]| <= |ys[0]|
    ensures xs[0] == ys[0]
  {
    ConcatHead(xs);
    ConcatHead(ys);
    var x, y := xs[0], ys[0];
    assert x == Concat(xs)[..|x|] == Concat(ys)[..|x|] == y[..|x|];
    if |x| < |y| {
      NextFileCloses(xs);
    }
  }

  lemma ChainedTail(bs: seq<seq<File>>)
    requires bs != [] && Chained(bs)
    ensures Chained(bs[1..])
  {
    var t := bs[1..];
    forall k | 0 < k < |t|
      ensures Closes(t[k - 1], t[k][0])
    {
      assert t[k - 1] == bs[k] && t[k] == bs[k + 1];
      assert Closes(bs[(k + 1) - 1], bs[k + 1][0]);
    }
  }

  lemma NonEmptyConcat(bs: seq<seq<File>>)
    requires Chained(bs) && bs != []
    ensures Concat(bs) != []
  {
    ConcatHead(bs);
  }

  /** The rule leaves no choice: a list of files has one greedy partition. */
  lemma {:induction false} GreedyIsUnique(xs: seq<seq<File>>, ys: seq<seq<File>>, files: seq<File>)
    requires Greedy(xs, files) && Greedy(ys, files)
    ensures xs == ys
    decreases |xs|
  {
    if xs == [] || ys == [] {
      if xs != [] {
        NonEmptyConcat(xs);
      }
      if ys != [] {
        NonEmptyConcat(ys);
      }
    } else {
      if |xs[0]| <= |ys[0]| {
        FirstBatchesAgree(xs, ys);
      } else {
        FirstBatchesAgree(ys, xs);
      }
      ConcatHead(xs);
      ConcatHead(ys);
      ChainedTail(xs);
      ChainedTail(ys);
      assert Concat(xs[1..]) == files[|xs[0]|..] == Concat(ys[1..]);
      GreedyIsUnique(xs[1..], ys[1..], files[|xs[0]|..]);
      assert xs == [xs[0]] + xs[1..];
      assert ys == [ys[0]] + ys[1..];
    }
  }

  // ---- the boundaries depend on the lengths alone

  function Lengths(files: seq<File>): (r: seq<nat>)
    ensures |r| == |files|
  {
    seq(|files|, i requires 0 <= i < |files| => files[i].len)
  }

  /** Batch by batch, the lengths of its files. */
  function Outline(bs: seq<seq<File>>): (r: seq<seq<nat>>)
    ensures |r| == |bs|
  {
    seq(|bs|, k requires 0 <= k < |bs| => Lengths(bs[k]))
  }

  /** The files with nothing but their lengths. */
  function Bare(files: seq<File>): (r: seq<File>)
    ensures |r| == |files|
  {
    seq(|files|, i requires 0 <= i < |files| => File(0, files[i].len, 0, 0))
  }

  function BareAll(bs: seq<seq<File>>): (r: seq<seq<File>>)
    ensures |r| == |bs|
  {
    seq(|bs|, k requires 0 <= k < |bs| => Bare(bs[k]))
  }

  lemma {:induction false} BareBytes(b: seq<File>)
    ensures Bytes(Bare(b)) == Bytes(b)
  {
    if b == [] {
    } else {
      var front := b[..|b| - 1];
      assert Bare(b)[..|b| - 1] == Bare(front);
      BareBytes(front);
    }
  }

  lemma BareCloses(b: seq<File>, f: File)
    ensures Closes(Bare(b), File(0, f.len, 0, 0)) == Closes(b, f)
  {
    BareBytes(b);
  }

  lemma BareFilled(b: seq<File>)
    requires Filled(b)
    ensures Filled(Bare(b))
  {
    forall k | 0 < k < |b|
      ensures !Closes(Bare(b)[..k], Bare(b)[k])
    {
      assert Bare(b)[..k] == Bare(b[..k]);
      BareCloses(b[..k], b[k]);
    }
  }

  lemma BareChained(bs: seq<seq<File>>)
    requires Chained(bs)
    ensures Chained(BareAll(bs))
  {
    forall k | 0 <= k < |bs|
      ensures Filled(BareAll(bs)[k])
    {
      BareFilled(bs[k]);
    }
    forall k | 0 < k < |bs|
      ensures Closes(BareAll(bs)[k - 1], BareAll(bs)[k][0])
    {
      BareCloses(bs[k - 1], bs[k][0]);
    }
  }

  lemma {:induction false} BareConcat(bs: seq<seq<File>>)
    ensures Concat(BareAll(bs)) == Bare(Concat(bs))
  {
    if bs == [] {
    } else {
      var front := bs[..|bs| - 1];
      assert BareAll(bs)[..|bs| - 1] == BareAll(front);
      BareConcat(front);
    }
  }

  lemma LengthsAreBare(files: seq<File>, others: seq<File>)
    ensures Lengths(files) == Lengths(others) <==> Bare(files) == Bare(others)
  {
    if Lengths(files) == Lengths(others) {
      forall i | 0 <= i < |files|
        ensures Bare(files)[i] == Bare(others)[i]
      {
        assert Lengths(files)[i] == Lengths(others)[i];
      }
    }
    if Bare(files) == Bare(others) {
      forall i | 0 <= i < |files|
        ensures Lengths(files)[i] == Lengths(others)[i]
      {
        assert Bare(files)[i] == Bare(others)[i];
      }
    }
  }

  lemma BareTellsOutline(xs: seq<seq<File>>, ys: seq<seq<File>>)
    requires BareAll(xs) == BareAll(ys)
    ensures Outline(xs) == Outline(ys)
  {
    forall k | 0 <= k < |xs|
      ensures Lengths(xs[k]) == Lengths(ys[k])
    {
      assert BareAll(xs)[k] == BareAll(ys)[k];
      LengthsAreBare(xs[k], ys[k]);
    }
  }

  /** Files of the same lengths are parted alike. */
  lemma OutlineIsOfLengths(xs: seq<seq<File>>, files: seq<File>, ys: seq<seq<File>>, others: seq<File>)
    requires Greedy(xs, files) && Greedy(ys, others) && Lengths(files) == Lengths(others)
    ensures Outline(xs) == Outline(ys)
  {
    LengthsAreBare(files, others);
    BareChained(xs);
    BareConcat(xs);
    BareChained(ys);
    BareConcat(ys);
    GreedyIsUnique(BareAll(xs), BareAll(ys), Bare(files));
    BareTellsOutline(xs, ys);
  }

  /** A fixed batch is at most 32 MiB and 256 files, unless it is one file. */
  lemma FilledIsBounded(b: seq<File>)
    requires Filled(b)
    ensures |b| <= BATCH_FILES
    ensures Bytes(b) <= BATCH_BYTES || |b| == 1
  {
    if |b| > 1 {
      var k := |b| - 1;
      assert !Closes(b[..k], b[k]);
      assert |b[..k]| == k;
    }
  }
}
