/**
 * Applying a field selection: `ApplyModelPicker.execute` (the panel's apply
 * action) and `ModelPicker.execute` (the checkbox form). Both work out which
 * label fields to hide and exclude the union of those fields' exclude sets
 * from the dataset's view.
 */
module Picker {
  import opened Wrappers
  import opened Dataset
  import opened ExcludeMapping

  /** `[f for f in labelFields if f not in selected]`, in catalog order. */
  function FieldsToHide(labelFields: seq<string>, selected: seq<string>): (r: seq<string>)
    ensures forall f :: f in r <==> f in labelFields && f !in selected
    ensures |r| <= |labelFields|
    decreases |labelFields|
  {
    if labelFields == [] then []
    else
      var rest := labelFields[..|labelFields| - 1];
      var last := labelFields[|labelFields| - 1];
      assert labelFields == rest + [last];
      FieldsToHide(rest, selected) + (if last in selected then [] else [last])
  }

  /** Hiding works field by field: the fields hidden from two parts of the catalog, in catalog order. */
  lemma {:induction false} FieldsToHideAppend(a: seq<string>, b: seq<string>, selected: seq<string>)
    ensures FieldsToHide(a + b, selected) == FieldsToHide(a, selected) + FieldsToHide(b, selected)
    decreases |b|
  {
    if b == [] {
      assert a + b == a;
    } else {
      var b' := b[..|b| - 1];
      assert (a + b)[..|a + b| - 1] == a + b';
      FieldsToHideAppend(a, b', selected);
    }
  }

  /** The label fields whose checkbox is cleared, in catalog order. */
  function Unchecked(labelFields: seq<string>, params: map<string, bool>): (r: seq<string>)
    requires forall f :: f in labelFields ==> f in params
    ensures forall f :: f in r <==> f in labelFields && !params[f]
    decreases |labelFields|
  {
    if labelFields == [] then []
    else
      var rest := labelFields[..|labelFields| - 1];
      var last := labelFields[|labelFields| - 1];
      Unchecked(rest, params) + (if params[last] then [] else [last])
  }

  /** The union of the exclude sets of the hidden fields `hidden`, accumulated in order. */
  function UnionOf(ds: Dataset, hidden: seq<string>): set<string>
    decreases |hidden|
  {
    if hidden == [] then {}
    else UnionOf(ds, hidden[..|hidden| - 1]) + ExcludeSet(ds, hidden[|hidden| - 1])
  }

  /** A path is in the union exactly when some hidden field's exclude set holds it. */
  lemma {:induction false} UnionOfMembers(ds: Dataset, hidden: seq<string>, p: string)
    ensures p in UnionOf(ds, hidden) <==> exists f :: f in hidden && p in ExcludeSet(ds, f)
    decreases |hidden|
  {
    if hidden != [] {
      var rest := hidden[..|hidden| - 1];
      UnionOfMembers(ds, rest, p);
      assert hidden == rest + [hidden[|hidden| - 1]];
    }
  }

  /**
   * Every hidden field is excluded, and everything excluded is a hidden
   * field or a path of the dataset's schema; so the union is empty exactly
   * when nothing is hidden.
   */
  lemma UnionOfBounds(ds: Dataset, hidden: seq<string>)
    ensures forall f :: f in hidden ==> f in UnionOf(ds, hidden)
    ensures forall p :: p in UnionOf(ds, hidden) ==> p in hidden || p in AllPaths(ds)
    ensures UnionOf(ds, hidden) == {} <==> hidden == []
  {
    forall f | f in hidden ensures f in UnionOf(ds, hidden) {
      UnionOfMembers(ds, hidden, f);
      ExcludeSetHasField(ds, f);
    }
    forall p | p in UnionOf(ds, hidden) ensures p in hidden || p in AllPaths(ds) {
      UnionOfMembers(ds, hidden, p);
    }
    if hidden != [] {
      assert hidden[0] in hidden;
    }
  }

  /** Only which fields are hidden matters, not their order or repetition. */
  lemma UnionOfSameFields(ds: Dataset, a: seq<string>, b: seq<string>)
    requires forall f :: f in a <==> f in b
    ensures UnionOf(ds, a) == UnionOf(ds, b)
  {
    forall p ensures p in UnionOf(ds, a) <==> p in UnionOf(ds, b) {
      UnionOfMembers(ds, a, p);
      UnionOfMembers(ds, b, p);
    }
  }

  /**
   * The `exclude_fields.extend(...)` loop both operators run: the union of
   * the mapping's entries for the hidden fields, in order.
   */
  method CollectExcluded(ds: Dataset, mapping: map<string, set<string>>, hidden: seq<string>)
    returns (excluded: set<string>)
    requires forall f :: f in hidden ==> f in mapping && mapping[f] == ExcludeSet(ds, f)
    ensures excluded == UnionOf(ds, hidden)
  {
    excluded := {};
    for i := 0 to |hidden|
      invariant excluded == UnionOf(ds, hidden[..i])
    {
      assert hidden[i] in hidden;
      excluded := excluded + mapping[hidden[i]];
      assert hidden[..i + 1][..i] == hidden[..i];
    }
    assert hidden[..|hidden|] == hidden;
  }

  datatype ApplyResult = ApplyResult(
    excludedCount: nat,
    selectedCount: nat,
    /** The paths the new view excludes; `None` when the view is left as it was. */
    newView: Option<set<string>>
  )

  /**
   * `ApplyModelPicker.execute`: hides every label field not selected. The
   * view is replaced, by one excluding the union of the hidden fields'
   * exclude sets, exactly when at least one field is hidden.
   */
  method ApplyModelPicker(ds: Dataset, selected: seq<string>) returns (res: ApplyResult)
    ensures res.excludedCount == |FieldsToHide(AllLabelFields(ds), selected)|
    ensures res.selectedCount == |selected|
    ensures res.newView.Some? <==> UnionOf(ds, FieldsToHide(AllLabelFields(ds), selected)) != {}
    ensures res.newView.Some? ==> res.newView.value == UnionOf(ds, FieldsToHide(AllLabelFields(ds), selected))
    ensures res.newView.Some? <==> res.excludedCount > 0
  {
    var allFields := AllLabelFields(ds);
    var fieldsToHide := FieldsToHide(allFields, selected);
    var fieldExcludeMapping := GenerateFieldExcludeMapping(ds, allFields);
    var excludeFields := CollectExcluded(ds, fieldExcludeMapping, fieldsToHide);
    UnionOfBounds(ds, fieldsToHide);
    var newView := if excludeFields != {} then Some(excludeFields) else None;
    res := ApplyResult(|fieldsToHide|, |selected|, newView);
  }

  /**
   * `ModelPicker.execute`: every label field whose checkbox is cleared is
   * hidden, and the view is always replaced by one excluding the union of
   * their exclude sets. The form has one checkbox per label field.
   */
  method ModelPicker(ds: Dataset, params: map<string, bool>) returns (newView: set<string>)
    requires forall f :: f in AllLabelFields(ds) ==> f in params
    ensures newView == UnionOf(ds, Unchecked(AllLabelFields(ds), params))
    ensures forall f :: f in AllLabelFields(ds) && !params[f] ==> f in newView
  {
    var labelFields := AllLabelFields(ds);
    var fieldExcludeMapping := GenerateFieldExcludeMapping(ds, labelFields);
    var uncheckedFields := UncheckedFields(labelFields, params);
    newView := CollectExcluded(ds, fieldExcludeMapping, uncheckedFields);
    forall f | f in labelFields && !params[f] ensures f in newView {
      UnionOfMembers(ds, uncheckedFields, f);
      ExcludeSetHasField(ds, f);
    }
  }

  /** The first loop of `ModelPicker.execute`: collects the unchecked label fields in order. */
  method UncheckedFields(labelFields: seq<string>, params: map<string, bool>) returns (unchecked: seq<string>)
    requires forall f :: f in labelFields ==> f in params
    ensures unchecked == Unchecked(labelFields, params)
  {
    unchecked := [];
    for i := 0 to |labelFields|
      invariant unchecked == Unchecked(labelFields[..i], params)
    {
      if !params[labelFields[i]] {
        unchecked := unchecked + [labelFields[i]];
      }
      assert labelFields[..i + 1][..i] == labelFields[..i];
    }
    assert labelFields[..|labelFields|] == labelFields;
  }

  /**
   * The form and the panel agree: when the checked boxes are exactly the
   * selected fields, both hide the same fields in the same order and
   * exclude the same paths.
   */
  lemma {:induction false} PickersAgree(labelFields: seq<string>, params: map<string, bool>, selected: seq<string>)
    requires forall f :: f in labelFields ==> f in params && (params[f] <==> f in selected)
    ensures Unchecked(labelFields, params) == FieldsToHide(labelFields, selected)
    decreases |labelFields|
  {
    if labelFields != [] {
      var rest := labelFields[..|labelFields| - 1];
      assert forall f :: f in rest ==> f in labelFields;
      PickersAgree(rest, params, selected);
    }
  }
}
