/** Matching in the first generation of the router (pkg/mux/path.go): a
    parameter segment on either side matches any non-empty segment on the
    other side, and prefix matching drives subrouter delegation. */
module PathA {

  import opened Segments
  import opened Paths

  /** The body of `HasPrefix`'s loop for one index: a parameter on the path
      side needs a non-empty prefix segment, a parameter on the prefix side
      needs a non-empty path segment, and otherwise the segments must be
      equal. */
  predicate SegmentMatches(pathField: string, prefixField: string)
  {
    if IsParam(pathField) then prefixField != ""
    else if IsParam(prefixField) then pathField != ""
    else pathField == prefixField
  }

  /** `HasPrefix`'s loop over the path fields: it succeeds as soon as the
      prefix fields run out. */
  predicate FieldsHavePrefix(pathFields: seq<string>, prefixFields: seq<string>)
    decreases |pathFields|
  {
    if pathFields == [] || prefixFields == [] then
      true
    else
      SegmentMatches(pathFields[0], prefixFields[0]) &&
      FieldsHavePrefix(pathFields[1..], prefixFields[1..])
  }

  /** `path.HasPrefix(prefix)`. */
  predicate HasPrefix(path: Path, prefix: Path)
  {
    var prefixFields := Fields(prefix);
    var pathFields := Fields(path);
    if |prefixFields| > |pathFields| then false
    else if prefix == "/" then true
    else FieldsHavePrefix(pathFields, prefixFields)
  }

  /** `path.Match(candidatePath)`: the same number of fields and a prefix. */
  predicate Match(path: Path, candidatePath: Path)
  {
    |Fields(path)| == |Fields(candidatePath)| && HasPrefix(path, candidatePath)
  }

  /** Two segments agree when they are equal or either is a parameter. */
  predicate Agree(a: string, b: string)
  {
    a == b || IsParam(a) || IsParam(b)
  }

  // ---------------------------------------------------------------------------
  // Lemmas
  // ---------------------------------------------------------------------------

  /** On non-empty segments the loop checks agreement at every prefix index. */
  lemma {:induction false} FieldsHavePrefixIff(pathFields: seq<string>, prefixFields: seq<string>)
    requires |prefixFields| <= |pathFields|
    requires forall i | 0 <= i < |pathFields| :: pathFields[i] != ""
    requires forall i | 0 <= i < |prefixFields| :: prefixFields[i] != ""
    ensures FieldsHavePrefix(pathFields, prefixFields) <==>
              forall i | 0 <= i < |prefixFields| :: Agree(pathFields[i], prefixFields[i])
    decreases |pathFields|
  {
    if pathFields != [] && prefixFields != [] {
      FieldsHavePrefixIff(pathFields[1..], prefixFields[1..]);
      if FieldsHavePrefix(pathFields, prefixFields) {
        forall i | 0 <= i < |prefixFields|
          ensures Agree(pathFields[i], prefixFields[i])
        {
          if i > 0 {
            assert Agree(pathFields[1..][i - 1], prefixFields[1..][i - 1]);
          }
        }
      } else {
        if SegmentMatches(pathFields[0], prefixFields[0]) {
          var j :| 0 <= j < |prefixFields[1..]| && !Agree(pathFields[1..][j], prefixFields[1..][j]);
          assert !Agree(pathFields[j + 1], prefixFields[j + 1]);
        }
      }
    }
  }

  /** `HasPrefix` holds exactly when the prefix has no more fields than the
      path and, at every index of the prefix, the two segments are equal or
      one of them is a parameter. (A prefix of "/" has no fields, so it is a
      prefix of every path.) */
  lemma HasPrefixIff(path: Path, prefix: Path)
    ensures |Fields(prefix)| > |Fields(path)| ==> !HasPrefix(path, prefix)
    ensures prefix == "/" ==> HasPrefix(path, prefix)
    ensures HasPrefix(path, prefix) <==>
              (|Fields(prefix)| <= |Fields(path)| &&
               forall i | 0 <= i < |Fields(prefix)| :: Agree(Fields(path)[i], Fields(prefix)[i]))
  {
    if prefix == "/" {
      FieldsOfPieces(prefix, ["", ""]);
      assert NonEmpty(["", ""]) == [] by {
        assert ["", ""][1..] == [""];
        assert [""][1..] == [];
      }
    }
    if |Fields(prefix)| <= |Fields(path)| {
      FieldsHavePrefixIff(Fields(path), Fields(prefix));
    }
  }

  /** Every path is a prefix of itself. */
  lemma HasPrefixReflexive(path: Path)
    ensures HasPrefix(path, path)
  {
    HasPrefixIff(path, path);
  }

  /** `Match` holds exactly when the field counts are equal and the
      segments agree pairwise; it implies `HasPrefix` both ways round and is
      symmetric. */
  lemma MatchIff(path: Path, candidatePath: Path)
    ensures Match(path, candidatePath) <==>
              (|Fields(path)| == |Fields(candidatePath)| &&
               forall i | 0 <= i < |Fields(path)| :: Agree(Fields(path)[i], Fields(candidatePath)[i]))
    ensures Match(path, candidatePath) ==> HasPrefix(path, candidatePath) && HasPrefix(candidatePath, path)
    ensures Match(path, candidatePath) == Match(candidatePath, path)
  {
    HasPrefixIff(path, candidatePath);
    HasPrefixIff(candidatePath, path);
  }

  /** A parameter matches on either side: "/:id" has prefix "/123" and
      "/123" has prefix "/:id" (internal/mux/path_test.go, TestHasPrefix). */
  lemma HasPrefixParamEitherSide(param: Path, literal: Path)
    requires param == "/:id" && literal == "/123"
    ensures HasPrefix(param, literal) && HasPrefix(literal, param)
    ensures Match(param, literal)
  {
    FieldsOfPieces(param, ["", ":id"]);
    FieldsOfPieces(literal, ["", "123"]);
    HasPrefixIff(param, literal);
    HasPrefixIff(literal, param);
  }

  /** A longer prefix, or one with a different literal segment, is no prefix
      (TestHasPrefix). */
  lemma HasPrefixRejects(path: Path, prefix: Path)
    requires path == JoinSlash(["", ":id"])
    requires prefix == JoinSlash(["", "positions", "123123"])
    ensures !HasPrefix(path, prefix)
  {
    FieldsOfPieces(path, ["", ":id"]);
    FieldsOfPieces(prefix, ["", "positions", "123123"]);
    HasPrefixIff(path, prefix);
  }

  /** A nested subrouter prefix is found under any request path of the shape
      of TestHasPrefix's "/investments/some-id/positions/other-id": the
      path's segments are "investments", `v`, "positions", `w` and the
      prefix's are "investments", ":id", "positions". */
  lemma HasPrefixNested(path: Path, prefix: Path, v: string, w: string)
    requires v != "" && '/' !in v && w != "" && '/' !in w
    requires path == JoinSlash(["", "investments", v, "positions", w])
    requires prefix == JoinSlash(["", "investments", ":id", "positions"])
    ensures HasPrefix(path, prefix)
  {
    RequestFields(path, v, w);
    PrefixFields(prefix);
    HasPrefixIff(path, prefix);
    assert IsParam(":id");
  }

  /** The segments of the request path of `HasPrefixNested`. */
  lemma RequestFields(path: Path, v: string, w: string)
    requires v != "" && '/' !in v && w != "" && '/' !in w
    requires path == JoinSlash(["", "investments", v, "positions", w])
    ensures Fields(path) == ["investments", v, "positions", w]
  {
    var pieces := ["", "investments", v, "positions", w];
    FieldsOfPieces(path, pieces);
    NonEmptyAll(pieces[1..]);
    assert pieces == [""] + pieces[1..];
  }

  /** The segments of the prefix of `HasPrefixNested`. */
  lemma PrefixFields(prefix: Path)
    requires prefix == JoinSlash(["", "investments", ":id", "positions"])
    ensures Fields(prefix) == ["investments", ":id", "positions"]
  {
    var pieces := ["", "investments", ":id", "positions"];
    FieldsOfPieces(prefix, pieces);
    assert NonEmpty(pieces) == pieces[1..];
  }

  /** `Match` needs equal arity: "/:id" does not match "/" and "/positions"
      does not match "positions/123" (TestMatch). */
  lemma MatchNeedsArity(param: Path, root: Path, literal: Path, longer: Path)
    requires param == "/:id" && root == "/"
    requires literal == "/positions" && longer == "positions/123"
    ensures !Match(param, root)
    ensures !Match(literal, longer)
  {
    FieldsOfPieces(param, ["", ":id"]);
    FieldsOfPieces(root, ["", ""]);
    FieldsOfPieces(literal, ["", "positions"]);
    FieldsOfPieces(longer, ["positions", "123"]);
  }
}
