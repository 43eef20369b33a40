/**
 * `generate_field_eval_mapping`: for each label field, the evaluation runs it
 * takes part in, with its role in each, in the order the runs are listed.
 */
module EvalMapping {
  import opened Dataset

  datatype Role = Prediction | GroundTruth

  /** One `{eval_key, role}` entry of a field's list. */
  datatype EvalRef = EvalRef(evalKey: string, role: Role)

  /** The field a run names for `role`. */
  function RoleField(e: EvalConfig, role: Role): string {
    match role
    case Prediction => e.predField
    case GroundTruth => e.gtField
  }

  /** What one run contributes to field `f`'s list: its prediction entry, then its ground-truth entry. */
  function RunRefs(e: EvalConfig, f: string): seq<EvalRef> {
    (if e.predField == f then [EvalRef(e.key, Prediction)] else []) +
    (if e.gtField == f then [EvalRef(e.key, GroundTruth)] else [])
  }

  /** Field `f`'s list after the runs `evals` have been processed in order. */
  function EvalRefs(evals: seq<EvalConfig>, f: string): seq<EvalRef>
    decreases |evals|
  {
    if evals == [] then []
    else EvalRefs(evals[..|evals| - 1], f) + RunRefs(evals[|evals| - 1], f)
  }

  /** `mapping.get(f, [])` */
  function Lookup(m: map<string, seq<EvalRef>>, f: string): seq<EvalRef> {
    if f in m then m[f] else []
  }

  /** `m[f].append(r)` on a `defaultdict(list)`: `f` gets a key, and `r` goes at the end of its list. */
  function Appended(m: map<string, seq<EvalRef>>, f: string, r: EvalRef): (m': map<string, seq<EvalRef>>)
    ensures forall g :: g in m' <==> g in m || g == f
    ensures Lookup(m', f) == Lookup(m, f) + [r]
    ensures forall g :: g != f ==> Lookup(m', g) == Lookup(m, g)
  {
    m[f := Lookup(m, f) + [r]]
  }

  /** `if field in label_fields: mapping[field].append(r)` */
  method AppendIfLabel(m0: map<string, seq<EvalRef>>, field: string, r: EvalRef, labelFields: seq<string>)
    returns (m: map<string, seq<EvalRef>>)
    ensures forall f :: f in m <==> f in m0 || (f == field && field in labelFields)
    ensures field in labelFields ==> Lookup(m, field) == Lookup(m0, field) + [r]
    ensures forall f :: f != field || field !in labelFields ==> Lookup(m, f) == Lookup(m0, f)
  {
    m := m0;
    if field in labelFields {
      m := Appended(m0, field, r);
    }
  }

  /** A run contributes to field `f` exactly when it names `f` as prediction or as ground truth. */
  lemma RunRefsEmpty(e: EvalConfig, f: string)
    ensures RunRefs(e, f) == [] <==> e.predField != f && e.gtField != f
  {
  }

  /** The body of the loop over the runs: appends run `config`'s entries for the label fields it names. */
  method AddRun(m0: map<string, seq<EvalRef>>, config: EvalConfig, labelFields: seq<string>)
    returns (m: map<string, seq<EvalRef>>)
    ensures forall f :: f in m <==> f in m0 || (f in labelFields && RunRefs(config, f) != [])
    ensures forall f :: Lookup(m, f) == Lookup(m0, f) + (if f in labelFields then RunRefs(config, f) else [])
  {
    var pred := EvalRef(config.key, Prediction);
    var gt := EvalRef(config.key, GroundTruth);
    var m1 := AppendIfLabel(m0, config.predField, pred, labelFields);
    m := AppendIfLabel(m1, config.gtField, gt, labelFields);
    forall f
      ensures Lookup(m, f) == Lookup(m0, f) + (if f in labelFields then RunRefs(config, f) else [])
    {
      if f in labelFields {
        var p := if f == config.predField then [pred] else [];
        var g := if f == config.gtField then [gt] else [];
        assert Lookup(m1, f) == Lookup(m0, f) + p;
        assert Lookup(m, f) == Lookup(m1, f) + g;
        assert Lookup(m, f) == Lookup(m0, f) + (p + g);
      }
    }
    forall f
      ensures f in m <==> f in m0 || (f in labelFields && RunRefs(config, f) != [])
    {
      RunRefsEmpty(config, f);
    }
  }

  /**
   * Builds the `defaultdict(list)`: only label fields get entries, a field
   * gets a key on its first append, and its list is `EvalRefs` of all runs.
   */
  method GenerateFieldEvalMapping(evals: seq<EvalConfig>, labelFields: seq<string>)
    returns (m: map<string, seq<EvalRef>>)
    ensures forall f :: f in m <==> f in labelFields && EvalRefs(evals, f) != []
    ensures forall f :: f in labelFields ==> Lookup(m, f) == EvalRefs(evals, f)
    ensures forall f :: f !in labelFields ==> Lookup(m, f) == []
  {
    m := map[];
    for i := 0 to |evals|
      invariant forall f :: f in m <==> f in labelFields && EvalRefs(evals[..i], f) != []
      invariant forall f :: Lookup(m, f) == if f in labelFields then EvalRefs(evals[..i], f) else []
    {
      m := AddRun(m, evals[i], labelFields);
      forall f
        ensures EvalRefs(evals[..i + 1], f) == EvalRefs(evals[..i], f) + RunRefs(evals[i], f)
      {
        EvalRefsStep(evals, i, f);
      }
    }
    assert evals[..|evals|] == evals;
  }

  /** Processing run `i` appends its contribution to the lists built from the runs before it. */
  lemma EvalRefsStep(evals: seq<EvalConfig>, i: int, f: string)
    requires 0 <= i < |evals|
    ensures EvalRefs(evals[..i + 1], f) == EvalRefs(evals[..i], f) + RunRefs(evals[i], f)
  {
    assert evals[..i + 1][..i] == evals[..i];
  }

  /** Runs listed earlier contribute earlier: the lists follow the listing order of the runs. */
  lemma {:induction false} EvalRefsAppend(a: seq<EvalConfig>, b: seq<EvalConfig>, f: string)
    ensures EvalRefs(a + b, f) == EvalRefs(a, f) + EvalRefs(b, f)
    decreases |b|
  {
    if b == [] {
      assert a + b == a;
    } else {
      var b' := b[..|b| - 1];
      assert (a + b)[..|a + b| - 1] == a + b';
      assert (a + b)[|a + b| - 1] == b[|b| - 1];
      EvalRefsAppend(a, b', f);
    }
  }

  /** A single run adds `(key, "prediction")` before `(key, "ground_truth")`. */
  lemma SingleRunRefs(e: EvalConfig, f: string)
    ensures EvalRefs([e], f) == RunRefs(e, f)
    ensures e.predField == f && e.gtField == f ==>
      EvalRefs([e], f) == [EvalRef(e.key, Prediction), EvalRef(e.key, GroundTruth)]
  {
    assert [e][..0] == [];
  }

  /** The indices of the runs that name `f` in `role`. */
  function RoleIndices(evals: seq<EvalConfig>, f: string, role: Role): set<int> {
    set i | 0 <= i < |evals| && RoleField(evals[i], role) == f
  }

  /** The entries with a given role, in order. */
  function WithRole(refs: seq<EvalRef>, role: Role): seq<EvalRef>
    decreases |refs|
  {
    if refs == [] then []
    else
      var last := refs[|refs| - 1];
      WithRole(refs[..|refs| - 1], role) + (if last.role == role then [last] else [])
  }

  lemma {:induction false} WithRoleAppend(a: seq<EvalRef>, b: seq<EvalRef>, role: Role)
    ensures WithRole(a + b, role) == WithRole(a, role) + WithRole(b, role)
    decreases |b|
  {
    if b == [] {
      assert a + b == a;
    } else {
      var b' := b[..|b| - 1];
      assert (a + b)[..|a + b| - 1] == a + b';
      WithRoleAppend(a, b', role);
    }
  }

  /**
   * A field gets one entry of a role per run naming it in that role, so its
   * list is as long as the number of runs naming it as prediction plus the
   * number naming it as ground truth.
   */
  lemma {:induction false} EvalRefsCount(evals: seq<EvalConfig>, f: string)
    ensures |WithRole(EvalRefs(evals, f), Prediction)| == |RoleIndices(evals, f, Prediction)|
    ensures |WithRole(EvalRefs(evals, f), GroundTruth)| == |RoleIndices(evals, f, GroundTruth)|
    ensures |EvalRefs(evals, f)| ==
      |RoleIndices(evals, f, Prediction)| + |RoleIndices(evals, f, GroundTruth)|
    decreases |evals|
  {
    if evals != [] {
      var n := |evals| - 1;
      var p := evals[..n];
      var e := evals[n];
      EvalRefsCount(p, f);
      WithRoleAppend(EvalRefs(p, f), RunRefs(e, f), Prediction);
      WithRoleAppend(EvalRefs(p, f), RunRefs(e, f), GroundTruth);
      WithRoleRunRefs(e, f);
      RoleIndicesSnoc(evals, f, Prediction);
      RoleIndicesSnoc(evals, f, GroundTruth);
    }
  }

  lemma WithRoleRunRefs(e: EvalConfig, f: string)
    ensures |WithRole(RunRefs(e, f), Prediction)| == (if e.predField == f then 1 else 0)
    ensures |WithRole(RunRefs(e, f), GroundTruth)| == (if e.gtField == f then 1 else 0)
  {
    var p := if e.predField == f then [EvalRef(e.key, Prediction)] else [];
    var g := if e.gtField == f then [EvalRef(e.key, GroundTruth)] else [];
    WithRoleAppend(p, g, Prediction);
    WithRoleAppend(p, g, GroundTruth);
    assert [EvalRef(e.key, Prediction)][..0] == [];
    assert [EvalRef(e.key, GroundTruth)][..0] == [];
  }

  lemma RoleIndicesSnoc(evals: seq<EvalConfig>, f: string, role: Role)
    requires evals != []
    ensures |RoleIndices(evals, f, role)| ==
      |RoleIndices(evals[..|evals| - 1], f, role)| +
      (if RoleField(evals[|evals| - 1], role) == f then 1 else 0)
  {
    var n := |evals| - 1;
    var before := RoleIndices(evals[..n], f, role);
    var all := RoleIndices(evals, f, role);
    var last := if RoleField(evals[n], role) == f then {n} else {};
    assert all == before + last by {
      forall i ensures i in all <==> i in before || i in last {
        if 0 <= i < n {
          assert evals[..n][i] == evals[i];
        }
      }
    }
    assert n !in before;
  }

  /**
   * `(key, role)` is in field `f`'s list exactly when some listed run with
   * that key names `f` in that role.
   */
  lemma {:induction false} EvalRefsMember(evals: seq<EvalConfig>, f: string, key: string, role: Role)
    ensures EvalRef(key, role) in EvalRefs(evals, f) <==>
      exists i :: 0 <= i < |evals| && evals[i].key == key && RoleField(evals[i], role) == f
    decreases |evals|
  {
    if evals != [] {
      var n := |evals| - 1;
      var p := evals[..n];
      EvalRefsMember(p, f, key, role);
      RunRefsMember(evals[n], f, key, role);
      assert EvalRefs(evals, f) == EvalRefs(p, f) + RunRefs(evals[n], f);
      if EvalRef(key, role) in EvalRefs(p, f) {
        var i :| 0 <= i < |p| && p[i].key == key && RoleField(p[i], role) == f;
        assert evals[i] == p[i];
      }
      if i :| 0 <= i < n && evals[i].key == key && RoleField(evals[i], role) == f {
        assert p[i] == evals[i];
      }
    }
  }

  /** One run's contribution holds `(key, role)` exactly when the run has that key and names `f` in that role. */
  lemma RunRefsMember(e: EvalConfig, f: string, key: string, role: Role)
    ensures EvalRef(key, role) in RunRefs(e, f) <==> e.key == key && RoleField(e, role) == f
  {
  }

  /** Every entry of field `f`'s list comes from a run that names `f` in the entry's role. */
  lemma EvalRefsSound(evals: seq<EvalConfig>, f: string, r: EvalRef)
    requires r in EvalRefs(evals, f)
    ensures exists i :: 0 <= i < |evals| && evals[i].key == r.evalKey && RoleField(evals[i], r.role) == f
  {
    EvalRefsMember(evals, f, r.evalKey, r.role);
  }
}
