/** The second generation's path matching (internal/router/path.go): a
    pattern is matched against the fields of a request path, and only the
    pattern's parameter segments are wildcards. */
module PathB {

  import opened Segments
  import opened Paths

  /** One step of the loop in `Match`: a parameter segment of the pattern
      accepts any non-empty candidate segment, any other segment only itself. */
  predicate SegmentMatches(patternField: string, candidateField: string)
  {
    if IsParam(patternField) then candidateField != "" else patternField == candidateField
  }

  /** The loop of `Match` over pattern fields of the same length as the
      candidate's; it returns false at the first segment that does not match. */
  function FieldsMatch(patternFields: seq<string>, candidateFields: seq<string>): bool
    requires |patternFields| == |candidateFields|
    decreases |patternFields|
  {
    if patternFields == [] then true
    else if !SegmentMatches(patternFields[0], candidateFields[0]) then false
    else FieldsMatch(patternFields[1..], candidateFields[1..])
  }

  /** `Match`: the arity check, then the loop. */
  function Match(path: Path, candidatePathFields: seq<string>): bool
  {
    |Fields(path)| == |candidatePathFields| && FieldsMatch(Fields(path), candidatePathFields)
  }

  // ---------------------------------------------------------------------------
  // Lemmas
  // ---------------------------------------------------------------------------

  lemma {:induction false} FieldsMatchIff(patternFields: seq<string>, candidateFields: seq<string>)
    requires |patternFields| == |candidateFields|
    ensures FieldsMatch(patternFields, candidateFields) <==>
              (forall i | 0 <= i < |patternFields| :: SegmentMatches(patternFields[i], candidateFields[i]))
    decreases |patternFields|
  {
    if patternFields != [] {
      FieldsMatchIff(patternFields[1..], candidateFields[1..]);
      if FieldsMatch(patternFields, candidateFields) {
        forall i | 0 <= i < |patternFields|
          ensures SegmentMatches(patternFields[i], candidateFields[i])
        {
          if i > 0 {
            assert patternFields[1..][i - 1] == patternFields[i];
            assert candidateFields[1..][i - 1] == candidateFields[i];
          }
        }
      } else if SegmentMatches(patternFields[0], candidateFields[0]) {
        var j :| 0 <= j < |patternFields[1..]| && !SegmentMatches(patternFields[1..][j], candidateFields[1..][j]);
        assert !SegmentMatches(patternFields[j + 1], candidateFields[j + 1]);
      }
    }
  }

  /** `Match(fs)` holds exactly when the arity agrees and, at every index,
      either the pattern segment is a parameter and the candidate segment is
      non-empty, or the two segments are equal. */
  lemma MatchIff(path: Path, candidatePathFields: seq<string>)
    ensures Match(path, candidatePathFields) <==>
              (&& |Fields(path)| == |candidatePathFields|
               && forall i | 0 <= i < |candidatePathFields| ::
                    || (IsParam(Fields(path)[i]) && candidatePathFields[i] != "")
                    || Fields(path)[i] == candidatePathFields[i])
  {
    var fs := Fields(path);
    if |fs| == |candidatePathFields| {
      FieldsMatchIff(fs, candidatePathFields);
      if Match(path, candidatePathFields) {
        forall i | 0 <= i < |candidatePathFields|
          ensures || (IsParam(fs[i]) && candidatePathFields[i] != "")
                  || fs[i] == candidatePathFields[i]
        {
          assert SegmentMatches(fs[i], candidatePathFields[i]);
        }
      } else {
        var i :| 0 <= i < |fs| && !SegmentMatches(fs[i], candidatePathFields[i]);
        assert !(IsParam(fs[i]) && candidatePathFields[i] != "");
        assert fs[i] != candidatePathFields[i];
      }
    }
  }

  /** Every pattern matches its own fields. */
  lemma MatchSelf(path: Path)
    ensures Match(path, Fields(path))
  {
    var fs := Fields(path);
    FieldsMatchIff(fs, fs);
    forall i | 0 <= i < |fs|
      ensures SegmentMatches(fs[i], fs[i])
    {
      assert fs[i] != "";
    }
  }

  /** Matching is one-sided: a literal pattern segment does not accept a
      parameter-looking candidate segment, while a parameter pattern segment
      accepts a literal one. */
  lemma MatchOneSided(literal: Path, param: Path)
    requires literal == "/123" && param == "/:id"
    ensures !Match(literal, [":id"])
    ensures Match(param, ["123"])
  {
    FieldsOfPieces(literal, ["", "123"]);
    FieldsOfPieces(param, ["", ":id"]);
    FieldsMatchIff(["123"], [":id"]);
    FieldsMatchIff([":id"], ["123"]);
  }

  /** A pattern only accepts candidates with its number of segments, so the
      root pattern accepts only the root's fields. */
  lemma MatchRoot(root: Path, candidatePathFields: seq<string>)
    requires root == "/"
    ensures Match(root, candidatePathFields) <==> candidatePathFields == []
  {
    FieldsOfPieces(root, ["", ""]);
  }
}
