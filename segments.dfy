/** Slash-separated segments: the parts of Go's `strings` and `path` packages
    that the router relies on (`strings.Split`, `strings.Join`,
    `strings.FieldsFunc` with '/' as separator, and `path.Clean` on a rooted
    path), written over `string` as a sequence of characters. */
module Segments {

  /** `strings.Split(s, "/")`: the pieces between separators, empty ones included. */
  function Split(s: string): (r: seq<string>)
    ensures |r| >= 1
    ensures forall i | 0 <= i < |r| :: '/' !in r[i]
    decreases |s|
  {
    if s == [] then [""]
    else
      var rest := Split(s[1..]);
      if s[0] == '/' then [""] + rest
      else [[s[0]] + rest[0]] + rest[1..]
  }

  /** `strings.Join(xs, "/")`. */
  function JoinSlash(xs: seq<string>): string
    decreases |xs|
  {
    if xs == [] then ""
    else if |xs| == 1 then xs[0]
    else xs[0] + "/" + JoinSlash(xs[1..])
  }

  /** The non-empty pieces of `xs`, in order. */
  function NonEmpty(xs: seq<string>): (r: seq<string>)
    ensures |r| <= |xs|
    ensures forall i | 0 <= i < |r| :: r[i] != "" && r[i] in xs
    decreases |xs|
  {
    if xs == [] then []
    else if xs[0] == "" then NonEmpty(xs[1..])
    else [xs[0]] + NonEmpty(xs[1..])
  }

  /** `strings.FieldsFunc(s, isPathSeparator)`: the maximal runs of characters other than '/'. */
  function FieldsFunc(s: string): (r: seq<string>)
    ensures forall i | 0 <= i < |r| :: r[i] != "" && '/' !in r[i]
  {
    NonEmpty(Split(s))
  }

  predicate IsDotSegment(s: string)
  {
    s == "." || s == ".."
  }

  /** A segment that can appear in the output of `path.Clean`. */
  predicate CleanSegment(s: string)
  {
    s != "" && '/' !in s && !IsDotSegment(s)
  }

  predicate AllClean(xs: seq<string>)
  {
    forall i | 0 <= i < |xs| :: CleanSegment(xs[i])
  }

  /** The segment stack that `path.Clean` keeps for a rooted path: empty and
      "." segments are dropped, ".." pops the previous segment (and is dropped
      at the root), any other segment is pushed. */
  function Resolve(stack: seq<string>, segs: seq<string>): seq<string>
    decreases |segs|
  {
    if segs == [] then stack
    else if segs[0] == "" || segs[0] == "." then Resolve(stack, segs[1..])
    else if segs[0] == ".." then Resolve(if stack == [] then [] else stack[..|stack| - 1], segs[1..])
    else Resolve(stack + [segs[0]], segs[1..])
  }

  /** `path.Clean(p)` for a rooted `p`: the lexical processing of Go's
      `path` package, which is all the router ever calls it on. */
  function CleanRooted(p: string): string
    requires |p| > 0 && p[0] == '/'
  {
    "/" + JoinSlash(Resolve([], Split(p)))
  }

  // ---------------------------------------------------------------------------
  // Lemmas
  // ---------------------------------------------------------------------------

  /** The stack only ever holds clean segments. */
  lemma {:induction false} ResolveClean(stack: seq<string>, segs: seq<string>)
    requires AllClean(stack)
    requires forall i | 0 <= i < |segs| :: '/' !in segs[i]
    ensures AllClean(Resolve(stack, segs))
    decreases |segs|
  {
    if segs != [] {
      if segs[0] == "" || segs[0] == "." {
        ResolveClean(stack, segs[1..]);
      } else if segs[0] == ".." {
        ResolveClean(if stack == [] then [] else stack[..|stack| - 1], segs[1..]);
      } else {
        ResolveClean(stack + [segs[0]], segs[1..]);
      }
    }
  }

  /** Without dot segments, the stack simply collects the non-empty segments. */
  lemma {:induction false} ResolveNoDots(stack: seq<string>, segs: seq<string>)
    requires forall i | 0 <= i < |segs| :: !IsDotSegment(segs[i])
    ensures Resolve(stack, segs) == stack + NonEmpty(segs)
    decreases |segs|
  {
    if segs != [] {
      if segs[0] == "" {
        ResolveNoDots(stack, segs[1..]);
      } else {
        ResolveNoDots(stack + [segs[0]], segs[1..]);
        assert stack + [segs[0]] + NonEmpty(segs[1..]) == stack + ([segs[0]] + NonEmpty(segs[1..]));
      }
    }
  }

  /** Characters without a separator extend the first piece. */
  lemma {:induction false} SplitPrepend(a: string, s: string)
    requires '/' !in a
    ensures Split(a + s) == [a + Split(s)[0]] + Split(s)[1..]
    decreases |a|
  {
    if a != [] {
      SplitPrepend(a[1..], s);
      assert (a + s)[0] == a[0] && (a + s)[1..] == a[1..] + s;
      var rest := Split(a[1..] + s);
      assert rest[0] == a[1..] + Split(s)[0] && rest[1..] == Split(s)[1..];
      assert [a[0]] + (a[1..] + Split(s)[0]) == a + Split(s)[0];
      assert a[0] != '/' by { assert a[0] in a; }
      assert Split(a + s) == [[a[0]] + rest[0]] + rest[1..];
    } else {
      assert a + s == s && a + Split(s)[0] == Split(s)[0];
      assert [Split(s)[0]] + Split(s)[1..] == Split(s);
    }
  }

  /** `strings.Split` undoes `strings.Join` on separator-free pieces. */
  lemma {:induction false} SplitJoin(xs: seq<string>)
    requires |xs| >= 1
    requires forall i | 0 <= i < |xs| :: '/' !in xs[i]
    ensures Split(JoinSlash(xs)) == xs
    decreases |xs|
  {
    if |xs| == 1 {
      SplitPrepend(xs[0], "");
      assert xs[0] + "" == xs[0];
    } else {
      var rest := JoinSlash(xs[1..]);
      SplitJoin(xs[1..]);
      SplitPrepend(xs[0], "/" + rest);
      assert xs[0] + "/" + rest == xs[0] + ("/" + rest);
      assert Split("/" + rest) == [""] + Split(rest) by {
        assert ("/" + rest)[1..] == rest;
      }
      assert xs[0] + "" == xs[0];
      assert [xs[0]] + xs[1..] == xs;
    }
  }

  /** The last character of a join of non-empty pieces is the last character of the last piece. */
  lemma {:induction false} JoinSlashLast(xs: seq<string>)
    requires |xs| >= 1 && xs[|xs| - 1] != ""
    ensures |JoinSlash(xs)| >= 1
    ensures JoinSlash(xs)[|JoinSlash(xs)| - 1] == xs[|xs| - 1][|xs[|xs| - 1]| - 1]
    decreases |xs|
  {
    if |xs| > 1 {
      JoinSlashLast(xs[1..]);
    }
  }

  /** Round trip: the fields of "/" followed by the join of non-empty,
      separator-free pieces are those pieces. */
  lemma FieldsOfRootedJoin(xs: seq<string>)
    requires forall i | 0 <= i < |xs| :: xs[i] != "" && '/' !in xs[i]
    ensures FieldsFunc("/" + JoinSlash(xs)) == xs
  {
    var s := "/" + JoinSlash(xs);
    assert s[1..] == JoinSlash(xs);
    if xs == [] {
      assert Split(s) == ["", ""] by {
        assert Split(s[1..]) == [""];
      }
      assert NonEmpty(["", ""]) == [] by {
        assert ["", ""][1..] == [""];
        assert NonEmpty([""]) == [] by { assert [""][1..] == []; }
      }
    } else {
      SplitJoin(xs);
      assert Split(s) == [""] + xs;
      NonEmptyAll(xs);
    }
  }

  lemma {:induction false} NonEmptyAll(xs: seq<string>)
    requires forall i | 0 <= i < |xs| :: xs[i] != ""
    ensures NonEmpty(xs) == xs
    ensures NonEmpty([""] + xs) == xs
    decreases |xs|
  {
    assert ([""] + xs)[1..] == xs;
    if xs != [] {
      NonEmptyAll(xs[1..]);
    }
  }

  /** A leading separator adds only an empty piece. */
  lemma FieldsFuncSlash(s: string)
    ensures FieldsFunc("/" + s) == FieldsFunc(s)
  {
    assert ("/" + s)[1..] == s;
  }
}
