/** Router paths: the part of the `Path` type that both generations of the
    router define in the same words (pkg/mux/path.go and
    internal/router/path.go): normalisation, fields, parameter segments,
    joining and the parameter-position table. The two generations differ only
    in how they match, which PathA and PathB model. */
module Paths {

  import opened Wrappers
  import opened Segments

  /** A `Path` is a string; `NewPath` is the only way the router builds one. */
  type Path = string

  /** `cleanPath`: the empty path is the root; a missing leading '/' is
      added; the rest is `path.Clean`. */
  function CleanPath(p: string): string
  {
    if p == "" then "/"
    else CleanRooted(if p[0] != '/' then "/" + p else p)
  }

  function NewPath(p: string): Path
  {
    CleanPath(p)
  }

  /** `Fields`: the non-empty segments between '/' separators. */
  function Fields(path: Path): seq<string>
  {
    FieldsFunc(path)
  }

  /** `isParam`: a segment names a parameter when it starts with ':'. */
  predicate IsParam(s: string)
  {
    |s| > 0 && s[0] == ':'
  }

  /** `Join`: the path and the elements joined with '/', then normalised. */
  function Join(path: Path, elems: seq<string>): Path
  {
    NewPath(JoinSlash([path] + elems))
  }

  /** A path in the form `NewPath` returns: a '/' followed by its fields
      joined with '/', none of them "." or "..". */
  predicate IsCanonical(p: string)
  {
    p == "/" + JoinSlash(Fields(p)) && AllClean(Fields(p))
  }

  // ---------------------------------------------------------------------------
  // Normalisation
  // ---------------------------------------------------------------------------

  /** The segments that `cleanPath` keeps are exactly the stack `path.Clean`
      builds, and they are all clean. */
  lemma CleanPathFields(p: string)
    ensures p == "" ==> Fields(CleanPath(p)) == []
    ensures p != "" ==> Fields(CleanPath(p)) == Resolve([], Split(if p[0] != '/' then "/" + p else p))
    ensures IsCanonical(CleanPath(p))
  {
    if p == "" {
      RootedJoinCanonical([]);
      assert CleanPath(p) == "/" + JoinSlash([]);
    } else {
      var q := if p[0] != '/' then "/" + p else p;
      var st := Resolve([], Split(q));
      ResolveClean([], Split(q));
      RootedJoinCanonical(st);
      assert CleanPath(p) == "/" + JoinSlash(st);
    }
  }

  /** A '/' followed by clean segments joined with '/' is canonical, and its
      fields are those segments. */
  lemma RootedJoinCanonical(st: seq<string>)
    requires AllClean(st)
    ensures Fields("/" + JoinSlash(st)) == st
    ensures IsCanonical("/" + JoinSlash(st))
  {
    FieldsOfRootedJoin(st);
  }

  /** `cleanPath` maps "" to "/", always returns a rooted path, and keeps a
      trailing '/' only on the root. */
  lemma CleanPathShape(p: string)
    ensures CleanPath("") == "/"
    ensures |CleanPath(p)| >= 1 && CleanPath(p)[0] == '/'
    ensures CleanPath(p) == "/" || CleanPath(p)[|CleanPath(p)| - 1] != '/'
  {
    if p != "" {
      var q := if p[0] != '/' then "/" + p else p;
      var st := Resolve([], Split(q));
      ResolveClean([], Split(q));
      if st != [] {
        JoinSlashLast(st);
        var last := st[|st| - 1];
        assert CleanSegment(last);
        assert last[|last| - 1] in last;
      }
    }
  }

  /** A canonical path is left as it is. */
  lemma CanonicalFixed(p: string)
    requires IsCanonical(p)
    ensures CleanPath(p) == p
  {
    var fs := Fields(p);
    assert p[0] == '/';
    assert p[1..] == JoinSlash(fs);
    assert Split(p) == [""] + Split(JoinSlash(fs));
    if fs == [] {
      assert Split(p) == ["", ""];
      assert Resolve([], ["", ""]) == [] by {
        assert ["", ""][1..] == [""];
        assert [""][1..] == [];
      }
    } else {
      SplitJoin(fs);
      assert Split(p) == [""] + fs;
      assert ([""] + fs)[1..] == fs;
      assert Resolve([], [""] + fs) == Resolve([], fs);
      ResolveNoDots([], fs);
      NonEmptyAll(fs);
      assert Resolve([], Split(p)) == fs by {
        assert [] + NonEmpty(fs) == NonEmpty(fs);
      }
      assert p != "";
      assert CleanPath(p) == "/" + JoinSlash(fs);
    }
  }

  /** `NewPath` is idempotent. */
  lemma NewPathIdempotent(p: string)
    ensures NewPath(NewPath(p)) == NewPath(p)
  {
    CleanPathFields(p);
    CanonicalFixed(NewPath(p));
  }

  /** A string is its own normal form exactly when it is canonical. */
  lemma NewPathFixedIff(p: string)
    ensures NewPath(p) == p <==> IsCanonical(p)
  {
    CleanPathFields(p);
    if IsCanonical(p) {
      CanonicalFixed(p);
    }
  }

  /** Without "." and ".." segments, cleaning changes no field: it only
      collapses separators and adds or drops slashes at the ends. */
  lemma CleanPathKeepsFields(p: string)
    requires forall i | 0 <= i < |Fields(p)| :: !IsDotSegment(Fields(p)[i])
    ensures Fields(CleanPath(p)) == Fields(p)
  {
    CleanPathFields(p);
    if p != "" {
      var q := if p[0] != '/' then "/" + p else p;
      if p[0] != '/' {
        FieldsFuncSlash(p);
      }
      assert Fields(q) == Fields(p);
      SplitNoDots(Split(q));
      ResolveNoDots([], Split(q));
    } else {
      assert Split("") == [""];
      assert NonEmpty([""]) == [] by { assert [""][1..] == []; }
    }
  }

  /** The pieces contain no dot segment when the non-empty ones do not. */
  lemma {:induction false} SplitNoDots(segs: seq<string>)
    requires forall i | 0 <= i < |NonEmpty(segs)| :: !IsDotSegment(NonEmpty(segs)[i])
    ensures forall i | 0 <= i < |segs| :: !IsDotSegment(segs[i])
    decreases |segs|
  {
    if segs != [] {
      if segs[0] == "" {
        assert NonEmpty(segs) == NonEmpty(segs[1..]);
        SplitNoDots(segs[1..]);
      } else {
        assert NonEmpty(segs) == [segs[0]] + NonEmpty(segs[1..]);
        assert NonEmpty(segs)[0] == segs[0];
        forall i | 0 <= i < |NonEmpty(segs[1..])|
          ensures !IsDotSegment(NonEmpty(segs[1..])[i])
        {
          assert NonEmpty(segs)[i + 1] == NonEmpty(segs[1..])[i];
        }
        SplitNoDots(segs[1..]);
      }
      forall i | 0 <= i < |segs|
        ensures !IsDotSegment(segs[i])
      {
        if i > 0 {
          assert segs[i] == segs[1..][i - 1];
        }
      }
    }
  }

  /** `Join` always returns a normalised path, and joining nothing onto a
      normalised path gives the path back. */
  lemma JoinNormalised(path: Path, elems: seq<string>)
    ensures IsCanonical(Join(path, elems))
    ensures NewPath(Join(path, elems)) == Join(path, elems)
    ensures IsCanonical(path) ==> Join(path, []) == path
  {
    CleanPathFields(JoinSlash([path] + elems));
    NewPathIdempotent(JoinSlash([path] + elems));
    if IsCanonical(path) {
      assert JoinSlash([path]) == path;
      CanonicalFixed(path);
    }
  }

  /** `cleanPath` of a rooted string given as its '/'-separated pieces. */
  lemma CleanPathOfPieces(p: string, pieces: seq<string>)
    requires |pieces| >= 2 && pieces[0] == ""
    requires forall i | 0 <= i < |pieces| :: '/' !in pieces[i]
    requires p == JoinSlash(pieces)
    ensures CleanPath(p) == "/" + JoinSlash(Resolve([], pieces))
  {
    SplitJoin(pieces);
  }

  /** The fields of a string given as its '/'-separated pieces. */
  lemma FieldsOfPieces(p: string, pieces: seq<string>)
    requires |pieces| >= 1
    requires forall i | 0 <= i < |pieces| :: '/' !in pieces[i]
    requires p == JoinSlash(pieces)
    ensures Fields(p) == NonEmpty(pieces)
  {
    SplitJoin(pieces);
  }

  /** Test cases of internal/mux/path_test.go (TestCleanPath). The inputs are
      parameters so that the solver works through the lemmas above rather than
      evaluating the literals. */
  lemma CleanPathExampleEmpty()
    ensures CleanPath("") == "/"
  {
  }

  lemma CleanPathExampleRoot(p: string)
    requires p == "/"
    ensures CleanPath(p) == "/"
  {
    var pieces := ["", ""];
    assert JoinSlash(pieces) == p;
    CleanPathOfPieces(p, pieces);
    assert Resolve([], pieces) == [];
  }

  lemma CleanPathExampleSlashes(p: string)
    requires p == "/////"
    ensures CleanPath(p) == "/"
  {
    var pieces := ["", "", "", "", "", ""];
    assert JoinSlash(pieces) == p;
    CleanPathOfPieces(p, pieces);
    assert Resolve([], pieces) == [];
  }

  lemma CleanPathExampleTrailing(p: string)
    requires p == "/:id/"
    ensures CleanPath(p) == "/:id"
  {
    var pieces := ["", ":id", ""];
    assert JoinSlash(pieces) == p;
    CleanPathOfPieces(p, pieces);
    assert Resolve([], pieces) == [":id"];
  }

  lemma CleanPathExampleBare(p: string)
    requires p == "positions"
    ensures CleanPath(p) == "/positions"
  {
    var pieces := ["", "positions"];
    assert JoinSlash(pieces) == "/" + p;
    CleanPathOfPieces("/" + p, pieces);
    assert Resolve([], pieces) == ["positions"];
  }

  lemma CleanPathExampleUnrooted(p: string)
    requires p == "positions///"
    ensures CleanPath(p) == "/positions"
  {
    var pieces := ["", "positions", "", "", ""];
    assert JoinSlash(pieces) == "/" + p;
    CleanPathOfPieces("/" + p, pieces);
    assert Resolve([], pieces) == ["positions"];
  }

  lemma CleanPathExampleInner(p: string)
    requires p == "/positions////:id"
    ensures CleanPath(p) == "/positions/:id"
  {
    var pieces := ["", "positions", "", "", "", ":id"];
    assert JoinSlash(pieces) == p;
    CleanPathOfPieces(p, pieces);
    assert Resolve([], pieces) == ["positions", ":id"];
    assert JoinSlash(["positions", ":id"]) == "positions/:id";
  }

  // ---------------------------------------------------------------------------
  // Parameter positions
  // ---------------------------------------------------------------------------

  /** No parameter segment occurs twice. */
  ghost predicate DistinctParams(fs: seq<string>)
  {
    forall i, j | 0 <= i < j < |fs| && IsParam(fs[i]) :: fs[i] != fs[j]
  }

  /** `pp` maps each parameter name to the index of its segment and has no
      other key. */
  ghost predicate IsParamsPos(fs: seq<string>, pp: map<string, nat>)
  {
    && (forall n | n in pp :: pp[n] < |fs| && fs[pp[n]] == ":" + n)
    && (forall i | 0 <= i < |fs| && IsParam(fs[i]) :: fs[i][1..] in pp)
  }

  /** `extractParamsPos`: points each parameter name at its segment; a
      repeated name is the panic of the source, here `None`. */
  method ExtractParamsPos(path: Path) returns (r: Option<map<string, nat>>)
    ensures r.Some? <==> DistinctParams(Fields(path))
    ensures r.Some? ==> IsParamsPos(Fields(path), r.value)
  {
    var fs := Fields(path);
    var pp: map<string, nat> := map[];
    for i := 0 to |fs|
      invariant DistinctParams(fs[..i])
      invariant IsParamsPos(fs[..i], pp)
    {
      if IsParam(fs[i]) && fs[i][1..] in pp {
        ParamsPosRepeat(fs, i, pp);
        return None;
      }
      ParamsPosStep(fs, i, pp);
      if IsParam(fs[i]) {
        pp := pp[fs[i][1..] := i];
      }
    }
    assert fs[..|fs|] == fs;
    return Some(pp);
  }

  /** One step of `extractParamsPos` on a segment whose name is new. */
  lemma ParamsPosStep(fs: seq<string>, i: nat, pp: map<string, nat>)
    requires i < |fs| && DistinctParams(fs[..i]) && IsParamsPos(fs[..i], pp)
    requires IsParam(fs[i]) ==> fs[i][1..] !in pp
    ensures DistinctParams(fs[..i + 1])
    ensures IsParamsPos(fs[..i + 1], if IsParam(fs[i]) then pp[fs[i][1..] := i] else pp)
  {
    assert fs[..i + 1] == fs[..i] + [fs[i]];
    if IsParam(fs[i]) {
      assert fs[i] == ":" + fs[i][1..];
    }
  }

  /** A segment whose name is already in the table repeats a parameter. */
  lemma ParamsPosRepeat(fs: seq<string>, i: nat, pp: map<string, nat>)
    requires i < |fs| && IsParamsPos(fs[..i], pp)
    requires IsParam(fs[i]) && fs[i][1..] in pp
    ensures !DistinctParams(fs)
  {
    var j := pp[fs[i][1..]];
    assert fs[i] == ":" + fs[i][1..];
    assert fs[..i][j] == fs[j];
  }

  /** The parameter-position table as a value: the one `extractParamsPos`
      returns when it does not panic. */
  ghost function ParamsPosOf(fs: seq<string>): (pp: map<string, nat>)
    requires DistinctParams(fs)
    ensures IsParamsPos(fs, pp)
  {
    var names := set i | 0 <= i < |fs| && IsParam(fs[i]) :: fs[i][1..];
    map n | n in names :: var i :| 0 <= i < |fs| && IsParam(fs[i]) && fs[i][1..] == n; i
  }

  /** With distinct names the table is unique. */
  lemma ParamsPosUnique(fs: seq<string>, a: map<string, nat>, b: map<string, nat>)
    requires DistinctParams(fs)
    requires IsParamsPos(fs, a) && IsParamsPos(fs, b)
    ensures a == b
  {
    forall n | n in a
      ensures n in b && a[n] == b[n]
    {
      assert fs[a[n]][1..] == n;
    }
    forall n | n in b
      ensures n in a
    {
      assert fs[b[n]][1..] == n;
    }
  }
}
