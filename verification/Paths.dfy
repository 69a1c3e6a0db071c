/** File identity (crates/graph-core/src/language.rs): `normalize_path` against what a path
    resolves to. */
module Paths {

  // ---- splitting and joining

  function Slashed(path: string): (r: string)
    ensures |r| == |path|
  {
    if path == [] then [] else Slashed(path[..|path| - 1]) + [if path[|path| - 1] == '\\' then '/' else path[|path| - 1]]
  }

  /** `split('/')`: the parts between the slashes, at least one. */
  function Split(path: string): (r: seq<string>)
    ensures r != []
    decreases |path|
  {
    if path == [] then [[]]
    else if path[0] == '/' then [[]] + Split(path[1..])
    else
      var rest := Split(path[1..]);
      [[path[0]] + rest[0]] + rest[1..]
  }

  function Join(parts: seq<string>): string {
    if parts == [] then []
    else if |parts| == 1 then parts[0]
    else parts[0] + "/" + Join(parts[1..])
  }

  predicate Absolute(path: string) {
    path != [] && path[0] == '/'
  }

  // ---- what a path resolves to

  /** An absolute or relative place: how far up from here, then down which names. */
  datatype Place = Place(abs: bool, ups: nat, names: seq<string>)

  function Enter(p: Place, part: string): Place {
    if part == "" || part == "." then p
    else if part == ".." then
      if p.names != [] then p.(names := p.names[..|p.names| - 1])
      else if p.abs then p
      else p.(ups := p.ups + 1)
    else p.(names := p.names + [part])
  }

  function Follow(p: Place, parts: seq<string>): Place
    decreases parts
  {
    if parts == [] then p else Follow(Enter(p, parts[0]), parts[1..])
  }

  function Meaning(path: string): Place {
    var s := Slashed(path);
    Follow(Place(Absolute(s), 0, []), Split(s))
  }

  // ---- the normal form

  function Ups(n: nat): (r: seq<string>)
    ensures |r| == n && forall i :: 0 <= i < n ==> r[i] == ".."
  {
    if n == 0 then [] else Ups(n - 1) + [".."]
  }

  /** The parts of the normal form. */
  function Stack(p: Place): seq<string> {
    Ups(p.ups) + p.names
  }

  function Render(p: Place): string {
    (if p.abs then "/" else "") + Join(Stack(p))
  }

  predicate IsName(part: string) {
    part != "" && part != "." && part != ".." && '/' !in part && '\\' !in part
  }

  /** A place a path can resolve to. */
  predicate Proper(p: Place) {
    (p.abs ==> p.ups == 0) && forall i :: 0 <= i < |p.names| ==> IsName(p.names[i])
  }

  predicate NoneUp(names: seq<string>) {
    forall k :: 0 <= k < |names| ==> names[k] != ".."
  }

  /** The end of the stack is a name, or there are no names. */
  lemma StackEnds(p: Place)
    requires NoneUp(p.names)
    ensures p.names == [] ==> Stack(p) == Ups(p.ups) && Stack(p) + [".."] == Stack(p.(ups := p.ups + 1))
    ensures p.names != [] ==>
              && Stack(p) != [] && Stack(p)[|Stack(p)| - 1] != ".."
              && Stack(p)[..|Stack(p)| - 1] == Stack(p.(names := p.names[..|p.names| - 1]))
  {
    if p.names != [] {
      assert Stack(p)[|Stack(p)| - 1] == p.names[|p.names| - 1];
    }
  }

  /** One part in the loop of `normalize_path`. */
  method Push(abs: bool, stack: seq<string>, c: string, ghost p: Place) returns (r: seq<string>)
    requires stack == Stack(p) && p.abs == abs && NoneUp(p.names)
    ensures r == Stack(Enter(p, c)) && NoneUp(Enter(p, c).names)
  {
    StackEnds(p);
    r := stack;
    if c == "" || c == "." {
    } else if c == ".." {
      if stack != [] && stack[|stack| - 1] != ".." {
        r := stack[..|stack| - 1];
      } else if !abs {
        r := stack + [".."];
      }
    } else {
      r := stack + [c];
      assert r == Stack(p.(names := p.names + [c]));
    }
  }

  /** `normalize_path`. */
  method NormalizePath(path: string) returns (r: string)
    ensures r == Render(Meaning(path))
  {
    var s := Slashed(path);
    var abs, parts := Absolute(s), Split(s);
    var stack: seq<string> := [];
    ghost var p := Place(abs, 0, []);
    for i := 0 to |parts|
      invariant p.abs == abs && Follow(p, parts[i..]) == Meaning(path)
      invariant stack == Stack(p) && NoneUp(p.names)
    {
      assert parts[i..][1..] == parts[i + 1..];
      stack := Push(abs, stack, parts[i], p);
      p := Enter(p, parts[i]);
    }
    r := (if abs then "/" else "") + Join(stack);
  }

  // ---- the normal form means the same

  predicate Plain(s: string) {
    '/' !in s && '\\' !in s
  }

  lemma {:induction false} SlashedKeeps(s: string)
    ensures '\\' !in Slashed(s) && ('\\' !in s ==> Slashed(s) == s)
  {
    if s == [] {
    } else {
      SlashedKeeps(s[..|s| - 1]);
    }
  }

  lemma {:induction false} SplitPlain(s: string)
    requires '\\' !in s
    ensures forall i :: 0 <= i < |Split(s)| ==> Plain(Split(s)[i])
    decreases |s|
  {
    if s == [] {
    } else {
      SplitPlain(s[1..]);
    }
  }

  lemma {:induction false} FollowIsProper(p: Place, parts: seq<string>)
    requires Proper(p) && forall i :: 0 <= i < |parts| ==> Plain(parts[i])
    ensures Proper(Follow(p, parts)) && Follow(p, parts).abs == p.abs
    decreases parts
  {
    if parts == [] {
    } else {
      FollowIsProper(Enter(p, parts[0]), parts[1..]);
    }
  }

  lemma MeaningIsProper(path: string)
    ensures Proper(Meaning(path)) && Meaning(path).abs == Absolute(Slashed(path))
  {
    SlashedKeeps(path);
    SplitPlain(Slashed(path));
    FollowIsProper(Place(Absolute(Slashed(path)), 0, []), Split(Slashed(path)));
  }

  lemma {:induction false} SplitOne(s: string, rest: string)
    requires '/' !in s
    ensures Split(s) == [s] && Split(s + "/" + rest) == [s] + Split(rest)
    decreases |s|
  {
    var t := s + "/" + rest;
    if s == [] {
      assert t[1..] == rest;
    } else {
      SplitOne(s[1..], rest);
      assert t[1..] == s[1..] + "/" + rest;
      assert s == [s[0]] + s[1..];
    }
  }

  lemma {:induction false} SplitJoin(parts: seq<string>)
    requires parts != [] && forall i :: 0 <= i < |parts| ==> '/' !in parts[i]
    ensures Split(Join(parts)) == parts
    decreases parts
  {
    if |parts| == 1 {
      SplitOne(parts[0], "");
      assert parts == [parts[0]];
    } else {
      SplitJoin(parts[1..]);
      SplitOne(parts[0], Join(parts[1..]));
    }
  }

  lemma {:induction false} FollowConcat(p: Place, x: seq<string>, y: seq<string>)
    ensures Follow(p, x + y) == Follow(Follow(p, x), y)
    decreases x
  {
    if x == [] {
      assert x + y == y;
    } else {
      FollowConcat(Enter(p, x[0]), x[1..], y);
      assert (x + y)[1..] == x[1..] + y;
    }
  }

  lemma {:induction false} FollowUps(n: nat, k: nat)
    ensures Follow(Place(false, k, []), Ups(n)) == Place(false, k + n, [])
    decreases n
  {
    if n == 0 {
    } else {
      FollowUps(n - 1, k);
      FollowConcat(Place(false, k, []), Ups(n - 1), [".."]);
    }
  }

  lemma {:induction false} FollowNames(p: Place, names: seq<string>)
    requires forall i :: 0 <= i < |names| ==> IsName(names[i])
    ensures Follow(p, names) == p.(names := p.names + names)
    decreases names
  {
    if names == [] {
      assert p.names + names == p.names;
    } else {
      FollowNames(Enter(p, names[0]), names[1..]);
      assert p.names + names == p.names + [names[0]] + names[1..];
    }
  }

  lemma FollowParts(p: Place)
    requires Proper(p)
    ensures Follow(Place(p.abs, 0, []), Stack(p)) == p
  {
    var start := Place(p.abs, 0, []);
    FollowConcat(start, Ups(p.ups), p.names);
    if !p.abs {
      FollowUps(p.ups, 0);
    }
    FollowNames(Place(p.abs, p.ups, []), p.names);
    assert [] + p.names == p.names;
  }

  lemma {:induction false} JoinKeeps(parts: seq<string>)
    requires forall i :: 0 <= i < |parts| ==> parts[i] != "" && Plain(parts[i])
    ensures '\\' !in Join(parts) && !Absolute(Join(parts)) && (Join(parts) == "" <==> parts == [])
    decreases parts
  {
    if |parts| > 1 {
      JoinKeeps(parts[1..]);
      assert Join(parts)[0] == parts[0][0];
    }
  }

  lemma MeaningOfJoin(parts: seq<string>, abs: bool, s: string)
    requires forall i :: 0 <= i < |parts| ==> parts[i] != "" && Plain(parts[i])
    requires s == (if abs then "/" else "") + Join(parts)
    ensures Slashed(s) == s && Absolute(s) == abs
    ensures Split(s) == (if abs then [""] else []) + if parts == [] then [""] else parts
  {
    JoinKeeps(parts);
    SlashedKeeps(s);
    if parts != [] {
      SplitJoin(parts);
    }
    if abs {
      assert s == "" + "/" + Join(parts);
      SplitOne("", Join(parts));
    } else {
      assert s == Join(parts);
    }
  }

  lemma FollowNothing(p: Place, abs: bool, parts: seq<string>)
    ensures Follow(p, (if abs then [""] else []) + if parts == [] then [""] else parts) == Follow(p, parts)
  {
    var head, tail := if abs then [""] else [], if parts == [] then [""] else parts;
    FollowConcat(p, head, tail);
    assert [""][1..] == [];
  }

  /** The normal form of a place resolves to it. */
  lemma RenderMeans(p: Place)
    requires Proper(p)
    ensures Meaning(Render(p)) == p
  {
    StackIsCanonical(p);
    MeaningOfJoin(Stack(p), p.abs, Render(p));
    FollowNothing(Place(p.abs, 0, []), p.abs, Stack(p));
    FollowParts(p);
  }

  /** What `normalize_path` returns. */
  function Normal(path: string): string {
    Render(Meaning(path))
  }

  lemma Idempotent(path: string)
    ensures Normal(Normal(path)) == Normal(path)
  {
    MeaningIsProper(path);
    RenderMeans(Meaning(path));
  }

  /** Two paths get the same result exactly when they resolve to the same place. */
  lemma SameIffSamePlace(p: string, q: string)
    ensures Normal(p) == Normal(q) <==> Meaning(p) == Meaning(q)
  {
    MeaningIsProper(p);
    MeaningIsProper(q);
    RenderMeans(Meaning(p));
    RenderMeans(Meaning(q));
  }

  /** No empty or `.` parts, and `..` only as a leading run of a relative path. */
  predicate CanonicalParts(abs: bool, parts: seq<string>) {
    && (forall i :: 0 <= i < |parts| ==> parts[i] != "" && parts[i] != "." && (parts[i] == ".." ==> !abs))
    && (forall i, j :: 0 <= i < j < |parts| && parts[j] == ".." ==> parts[i] == "..")
  }

  function Below(s: string): string {
    if Absolute(s) then s[1..] else s
  }

  predicate Canonical(s: string) {
    '\\' !in s && (Below(s) == "" || CanonicalParts(Absolute(s), Split(Below(s))))
  }

  lemma {:induction false} JoinSplit(s: string)
    ensures Join(Split(s)) == s
    decreases |s|
  {
    if s == [] {
    } else {
      JoinSplit(s[1..]);
      var rest := Split(s[1..]);
      if s[0] == '/' {
        assert Split(s)[1..] == rest;
      } else {
        assert Split(s)[1..] == rest[1..];
      }
    }
  }

  lemma HasName(p: Place)
    requires Proper(p)
    ensures p.names != [] ==> exists i :: 0 <= i < |Stack(p)| && Stack(p)[i] != ".."
  {
    if p.names != [] {
      assert Stack(p)[p.ups] == p.names[0];
    }
  }

  /** Canonical parts are a run of `..` and then names. */
  lemma {:induction false} LeadingRun(abs: bool, parts: seq<string>) returns (p: Place)
    requires CanonicalParts(abs, parts) && forall i :: 0 <= i < |parts| ==> Plain(parts[i])
    ensures Proper(p) && p.abs == abs && parts == Stack(p)
    decreases parts
  {
    if parts == [] {
      p := Place(abs, 0, []);
    } else {
      var front, last := parts[..|parts| - 1], parts[|parts| - 1];
      p := LeadingRun(abs, front);
      assert parts == front + [last];
      if last == ".." {
        forall i | 0 <= i < |front|
          ensures front[i] == ".."
        {
          assert parts[i] == "..";
        }
        HasName(p);
        p := p.(ups := p.ups + 1);
      } else {
        p := p.(names := p.names + [last]);
      }
    }
  }

  lemma StackIsCanonical(p: Place)
    requires Proper(p)
    ensures CanonicalParts(p.abs, Stack(p)) && forall i :: 0 <= i < |Stack(p)| ==> Stack(p)[i] != "" && Plain(Stack(p)[i])
  {
  }

  lemma RenderIsCanonical(p: Place)
    requires Proper(p)
    ensures Canonical(Render(p))
  {
    var parts := Stack(p);
    StackIsCanonical(p);
    JoinKeeps(parts);
    if parts != [] {
      SplitJoin(parts);
    }
    assert Below(Render(p)) == Join(parts);
  }

  /** The results of `normalize_path` are the canonical paths, and those are left alone. */
  lemma IsCanonical(path: string)
    ensures Canonical(Normal(path)) && (Canonical(path) <==> Normal(path) == path)
  {
    MeaningIsProper(path);
    RenderIsCanonical(Meaning(path));
    if Canonical(path) {
      var body := Below(path);
      JoinSplit(body);
      SplitPlain(body);
      var parts := if body == "" then [] else Split(body);
      var q := LeadingRun(Absolute(path), parts);
      assert path == Render(q);
      RenderMeans(q);
    }
  }

  // ---- prefixes

  lemma {:induction false} SlashedConcat(p: string, q: string)
    ensures Slashed(p + q) == Slashed(p) + Slashed(q)
    decreases |q|
  {
    if q == [] {
      assert p + q == p;
    } else {
      SlashedConcat(p, q[..|q| - 1]);
      assert (p + q)[..|p + q| - 1] == p + q[..|q| - 1];
    }
  }

  /** The first character goes to the first part, unless it is a slash. */
  lemma SplitHead(s: string)
    requires s != []
    ensures var rest := Split(s[1..]);
            Split(s) == if s[0] == '/' then [[]] + rest else [[s[0]] + rest[0]] + rest[1..]
  {
  }

  lemma HeadJoins(c: char, x: seq<string>, y: seq<string>)
    requires x != []
    ensures [[]] + (x + y) == [[]] + x + y
    ensures [[c] + (x + y)[0]] + (x + y)[1..] == [[c] + x[0]] + x[1..] + y
  {
  }

  lemma {:induction false} SplitConcat(p: string, q: string)
    ensures Split(p + "/" + q) == Split(p) + Split(q)
    decreases |p|
  {
    var s := p + "/" + q;
    if p == [] {
      assert s[1..] == q;
    } else {
      SplitConcat(p[1..], q);
      assert s[1..] == p[1..] + "/" + q && s[0] == p[0];
      SplitHead(p);
      SplitHead(s);
      HeadJoins(p[0], Split(p[1..]), Split(q));
    }
  }

  /** A path under a non-empty prefix goes on from where the prefix ends. */
  lemma MeaningUnder(p: string, q: string)
    ensures Meaning(p + "/" + q) == if p == "" then Follow(Place(true, 0, []), Split(Slashed(q))) else Follow(Meaning(p), Split(Slashed(q)))
  {
    SlashedConcat(p, "/" + q);
    SlashedConcat("/", q);
    assert p + "/" + q == p + ("/" + q);
    assert Slashed("/") == "/" by {
      assert "/"[..0] == [];
    }
    var s, t := Slashed(p), Slashed(q);
    assert Slashed(p + "/" + q) == s + "/" + t;
    SplitConcat(s, t);
    FollowConcat(Place(Absolute(s + "/" + t), 0, []), Split(s), Split(t));
  }

  /** Normalizing a prefix first changes nothing, whatever follows, exactly when the prefix's
      normal form is not empty or the prefix is: a relative prefix that goes nowhere would
      make the path absolute. */
  lemma PrefixLaw(p: string, q: string)
    ensures Normal(p + "/" + q) == Normal(Normal(p) + "/" + q) <==> Normal(p) != "" || p == ""
  {
    var n := Normal(p);
    MeaningUnder(p, q);
    MeaningUnder(n, q);
    MeaningIsProper(p);
    RenderMeans(Meaning(p));
    SameIffSamePlace(p + "/" + q, n + "/" + q);
    SlashedKeeps(q);
    SplitPlain(Slashed(q));
    FollowIsProper(Meaning(p), Split(Slashed(q)));
    FollowIsProper(Place(true, 0, []), Split(Slashed(q)));
  }
}
