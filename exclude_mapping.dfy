/**
 * `generate_field_exclude_mapping`: what to exclude from the view when a
 * label field is hidden. That is the field itself, plus every schema path
 * that mentions one of the field's evaluation keys and does not start with
 * the field's name. The source turns each list into a Python set, whose
 * order is unspecified, so each entry is modelled as a `set`.
 */
module ExcludeMapping {
  import opened PyStrings
  import opened Dataset
  import opened EvalMapping

  /** `[p for p in paths if key in p and not p.startswith(field)]` */
  function MatchingPaths(paths: seq<string>, key: string, field: string): (r: seq<string>)
    ensures forall p :: p in r <==> p in paths && Contains(p, key) && !StartsWith(p, field)
    ensures |r| <= |paths|
  {
    if paths == [] then []
    else
      (if Contains(paths[0], key) && !StartsWith(paths[0], field) then [paths[0]] else []) +
      MatchingPaths(paths[1..], key, field)
  }

  /** Path `p` mentions the key of one of the entries `refs`. */
  predicate MentionsKey(p: string, refs: seq<EvalRef>) {
    exists k :: 0 <= k < |refs| && Contains(p, refs[k].evalKey)
  }

  /** What hiding label field `field` excludes. */
  function ExcludeSet(ds: Dataset, field: string): set<string> {
    var refs := EvalRefs(ds.evaluations, field);
    {field} + set p | p in AllPaths(ds) && !StartsWith(p, field) && MentionsKey(p, refs)
  }

  /** The set of paths one field's exclude list collects, built run by run. */
  method AssociatedFields(paths: seq<string>, field: string, refs: seq<EvalRef>)
    returns (associated: seq<string>)
    ensures forall p :: p in associated <==>
      p == field || (p in paths && !StartsWith(p, field) && MentionsKey(p, refs))
  {
    associated := [field];
    for j := 0 to |refs|
      invariant forall p :: p in associated <==>
        p == field || (p in paths && !StartsWith(p, field) && MentionsKey(p, refs[..j]))
    {
      associated := associated + MatchingPaths(paths, refs[j].evalKey, field);
      forall p ensures MentionsKey(p, refs[..j + 1]) <==> MentionsKey(p, refs[..j]) || Contains(p, refs[j].evalKey) {
        MentionsKeyStep(p, refs, j);
      }
    }
    assert refs[..|refs|] == refs;
  }

  lemma MentionsKeyStep(p: string, refs: seq<EvalRef>, j: int)
    requires 0 <= j < |refs|
    ensures MentionsKey(p, refs[..j + 1]) <==> MentionsKey(p, refs[..j]) || Contains(p, refs[j].evalKey)
  {
    if MentionsKey(p, refs[..j + 1]) {
      var k :| 0 <= k < j + 1 && Contains(p, refs[..j + 1][k].evalKey);
      if k < j {
        assert refs[..j][k] == refs[..j + 1][k];
      }
    }
    if MentionsKey(p, refs[..j]) {
      var k :| 0 <= k < j && Contains(p, refs[..j][k].evalKey);
      assert refs[..j + 1][k] == refs[..j][k];
    }
    if Contains(p, refs[j].evalKey) {
      assert refs[..j + 1][j] == refs[j];
    }
  }

  /**
   * Builds the mapping for `labelFields`: every label field gets an entry,
   * and its entry is `ExcludeSet` of that field.
   */
  method GenerateFieldExcludeMapping(ds: Dataset, labelFields: seq<string>)
    returns (m: map<string, set<string>>)
    ensures forall f :: f in m <==> f in labelFields
    ensures forall f :: f in m ==> m[f] == ExcludeSet(ds, f)
  {
    var evalMapping := GenerateFieldEvalMapping(ds.evaluations, labelFields);
    var allFields := AllPaths(ds);
    m := map[];
    for i := 0 to |labelFields|
      invariant forall f :: f in m <==> f in labelFields[..i]
      invariant forall f :: f in m ==> m[f] == ExcludeSet(ds, f)
    {
      var field := labelFields[i];
      var associated := AssociatedFields(allFields, field, Lookup(evalMapping, field));
      var entry := set p | p in associated;
      assert entry == ExcludeSet(ds, field);
      m := m[field := entry];
      assert labelFields[..i + 1] == labelFields[..i] + [field];
    }
    assert labelFields[..|labelFields|] == labelFields;
  }

  /** A field's exclude set always holds the field itself. */
  lemma ExcludeSetHasField(ds: Dataset, field: string)
    ensures field in ExcludeSet(ds, field)
  {
  }

  /**
   * Apart from the field itself, a path is excluded with `field` exactly when
   * it is a sample or frame schema path, does not start with the field's name,
   * and mentions the key of a listed run that names `field` as its prediction
   * or ground-truth field.
   */
  lemma ExcludeSetMembers(ds: Dataset, field: string, p: string)
    ensures p in ExcludeSet(ds, field) <==>
      p == field ||
      (&& (p in ds.samplePaths || p in ds.framePaths.GetOr([]))
       && !StartsWith(p, field)
       && exists i :: 0 <= i < |ds.evaluations| && NamesField(ds.evaluations[i], field)
                      && Contains(p, ds.evaluations[i].key))
  {
    var evals := ds.evaluations;
    var refs := EvalRefs(evals, field);
    if MentionsKey(p, refs) {
      var k :| 0 <= k < |refs| && Contains(p, refs[k].evalKey);
      EvalRefsSound(evals, field, refs[k]);
    }
    if i :| 0 <= i < |evals| && NamesField(evals[i], field) && Contains(p, evals[i].key) {
      var role := if evals[i].predField == field then Prediction else GroundTruth;
      EvalRefsMember(evals, field, evals[i].key, role);
      var k :| 0 <= k < |refs| && refs[k] == EvalRef(evals[i].key, role);
      assert Contains(p, refs[k].evalKey);
    }
  }

  /** Run `e` names `field` as its prediction or its ground-truth field. */
  predicate NamesField(e: EvalConfig, field: string) {
    e.predField == field || e.gtField == field
  }
}
