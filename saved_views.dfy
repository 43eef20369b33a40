/**
 * Saved field-selection presets. A preset is a saved view of the dataset
 * whose description starts with the marker "[Model Picker]":
 * `SaveModelPickerView` writes the marker, `ListModelPickerViews` lists the
 * views that carry it with the marker removed, and `DeleteModelPickerView`
 * removes a view by name.
 */
module SavedViews {
  import opened Wrappers
  import opened PyStrings

  /** The marker that identifies the presets among the dataset's saved views. */
  const Marker: string := "[Model Picker]"

  /** A timestamp, as the store reports it; the model only passes it through. */
  type Timestamp = int

  /** What the store keeps about a saved view; `view` is the set of paths the view excludes. */
  datatype ViewInfo = ViewInfo(
    description: Option<string>,
    color: Option<string>,
    view: set<string>,
    createdAt: Option<Timestamp>,
    lastModifiedAt: Option<Timestamp>
  )

  /** One entry of the store's listing: a name with its info. */
  datatype SavedView = SavedView(name: string, info: ViewInfo)

  /** One entry of `ListModelPickerViews`' result. */
  datatype ViewSummary = ViewSummary(
    name: string,
    description: string,
    createdAt: Option<Timestamp>,
    lastModifiedAt: Option<Timestamp>
  )

  /** The result of `DeleteModelPickerView`: the deleted name, or an error message. */
  datatype DeleteResult = Deleted(deletedView: string) | DeleteFailed(error: string)

  /** The description `SaveModelPickerView` stores: the marker, then the user's text if any. */
  function FullDescription(description: Option<string>): (r: string)
    ensures StartsWith(r, Marker)
    ensures Truthy(description) ==> r == Marker + " " + description.value
    ensures !Truthy(description) ==> r == Marker
  {
    if Truthy(description) then Marker + " " + description.value else Marker
  }

  /** The listing filter: a description that is present, non-empty and starts with the marker. */
  predicate IsPickerDescription(description: Option<string>) {
    Truthy(description) && StartsWith(description.value, Marker)
  }

  /** `description.replace("[Model Picker]", "").strip()` */
  function CleanDescription(description: string): string {
    Strip(ReplaceAll(description, Marker, ""))
  }

  /** The listing entry of a preset. */
  function Summary(v: SavedView): ViewSummary
    requires IsPickerDescription(v.info.description)
  {
    ViewSummary(v.name, CleanDescription(v.info.description.value), v.info.createdAt, v.info.lastModifiedAt)
  }

  /** The presets among `listing`, in listing order, as `ListModelPickerViews` reports them. */
  function PickerViews(listing: seq<SavedView>): seq<ViewSummary>
    decreases |listing|
  {
    if listing == [] then []
    else
      var last := listing[|listing| - 1];
      PickerViews(listing[..|listing| - 1]) +
      (if IsPickerDescription(last.info.description) then [Summary(last)] else [])
  }

  /** Filtering one more entry of the listing appends that entry's summary when it is a preset. */
  lemma PickerViewsSnoc(listing: seq<SavedView>, i: int)
    requires 0 <= i < |listing|
    ensures PickerViews(listing[..i + 1]) == PickerViews(listing[..i]) +
      (if IsPickerDescription(listing[i].info.description) then [Summary(listing[i])] else [])
  {
    assert listing[..i + 1][..i] == listing[..i];
  }

  /** A preset saved last in the listing is listed last. */
  lemma PickerViewsLast(listing: seq<SavedView>)
    requires listing != [] && IsPickerDescription(listing[|listing| - 1].info.description)
    ensures PickerViews(listing) != []
    ensures PickerViews(listing)[|PickerViews(listing)| - 1] == Summary(listing[|listing| - 1])
  {
  }

  /** The listing is filtered entry by entry, keeping the listing order. */
  lemma {:induction false} PickerViewsAppend(a: seq<SavedView>, b: seq<SavedView>)
    ensures PickerViews(a + b) == PickerViews(a) + PickerViews(b)
    decreases |b|
  {
    if b == [] {
      assert a + b == a;
    } else {
      var b' := b[..|b| - 1];
      assert (a + b)[..|a + b| - 1] == a + b';
      PickerViewsAppend(a, b');
    }
  }

  /** Every entry of the listing is the summary of a view, at index `i`, whose description carries the marker. */
  lemma {:induction false} PickerViewsSound(listing: seq<SavedView>, s: ViewSummary) returns (i: int)
    requires s in PickerViews(listing)
    ensures 0 <= i < |listing| && IsPickerDescription(listing[i].info.description) && s == Summary(listing[i])
    decreases |listing|
  {
    var n := |listing| - 1;
    var rest := listing[..n];
    var tail := if IsPickerDescription(listing[n].info.description) then [Summary(listing[n])] else [];
    assert PickerViews(listing) == PickerViews(rest) + tail;
    if s in PickerViews(rest) {
      i := PickerViewsSound(rest, s);
      assert rest[i] == listing[i];
    } else {
      i := n;
    }
  }

  /** Every view whose description carries the marker is listed, with its summary. */
  lemma {:induction false} PickerViewsComplete(listing: seq<SavedView>, i: int)
    requires 0 <= i < |listing| && IsPickerDescription(listing[i].info.description)
    ensures Summary(listing[i]) in PickerViews(listing)
    decreases |listing|
  {
    var n := |listing| - 1;
    var rest := listing[..n];
    var tail := if IsPickerDescription(listing[n].info.description) then [Summary(listing[n])] else [];
    assert PickerViews(listing) == PickerViews(rest) + tail;
    if i < n {
      assert rest[i] == listing[i];
      PickerViewsComplete(rest, i);
    } else {
      assert tail == [Summary(listing[i])];
    }
  }

  /** The listing never has more entries than there are saved views. */
  lemma {:induction false} PickerViewsLength(listing: seq<SavedView>)
    ensures |PickerViews(listing)| <= |listing|
    decreases |listing|
  {
    if listing != [] {
      PickerViewsLength(listing[..|listing| - 1]);
    }
  }

  /** Removing the prefix `pat` and a following space, then stripping, leaves the rest stripped. */
  lemma CleanAfterPrefix(pat: string, d: string)
    requires pat != [] && pat[0] != ' '
    ensures Strip(ReplaceAll(pat + " " + d, pat, "")) == Strip(ReplaceAll(d, pat, ""))
  {
    var spaced := [' '] + d;
    assert pat + " " + d == pat + spaced;
    ReplaceAllLeading(spaced, pat, "");
    assert ReplaceAll(pat + spaced, pat, "") == ReplaceAll(spaced, pat, "");
    ReplaceAllSkip(' ', d, pat, "");
    var rest := ReplaceAll(d, pat, "");
    assert ReplaceAll(spaced, pat, "") == [' '] + rest;
    StripLeadingSpace(' ', rest);
  }

  /** The prefix alone cleans to the empty string. */
  lemma CleanPrefixAlone(pat: string)
    requires pat != []
    ensures Strip(ReplaceAll(pat, pat, "")) == ""
  {
    assert pat == pat + [];
    ReplaceAllLeading([], pat, "");
  }

  /**
   * A description saved by `SaveModelPickerView` passes the listing filter,
   * and the listing shows it back with the marker and surrounding
   * whitespace removed; a save without a description lists as `""`.
   */
  lemma ListedDescriptionOfSaved(description: Option<string>)
    ensures IsPickerDescription(Some(FullDescription(description)))
    ensures CleanDescription(FullDescription(description)) ==
      if Truthy(description) then Strip(ReplaceAll(description.value, Marker, "")) else ""
  {
    if Truthy(description) {
      CleanAfterPrefix(Marker, description.value);
    } else {
      CleanPrefixAlone(Marker);
    }
  }

  /**
   * Round trip: a description without the marker and without surrounding
   * whitespace is listed exactly as it was given.
   */
  lemma PlainDescriptionRoundTrip(d: string)
    requires d != [] && !Contains(d, Marker) && !IsSpace(d[0]) && !IsSpace(d[|d| - 1])
    ensures CleanDescription(FullDescription(Some(d))) == d
  {
    ListedDescriptionOfSaved(Some(d));
    ReplaceAllAbsent(d, Marker, "");
    StripTrimmed(d);
  }

  predicate NoDuplicates(s: seq<string>) {
    forall i, j :: 0 <= i < j < |s| ==> s[i] != s[j]
  }

  /** `names` with `n` taken out, the others kept in order. */
  function Without(names: seq<string>, n: string): (r: seq<string>)
    ensures forall x :: x in r <==> x in names && x != n
    ensures n !in names ==> r == names
    ensures NoDuplicates(names) ==> NoDuplicates(r)
    ensures NoDuplicates(names) && n in names ==> |r| == |names| - 1
    decreases |names|
  {
    if names == [] then []
    else
      var rest := Without(names[1..], n);
      assert NoDuplicates(names) ==> names[0] !in names[1..];
      assert names == [names[0]] + names[1..];
      (if names[0] == n then [] else [names[0]]) + rest
  }

  /** `names` without every name whose slug is `slug`, the others kept in order. */
  function WithoutSlug(names: seq<string>, slugOf: string -> string, slug: string): (r: seq<string>)
    ensures forall x :: x in r <==> x in names && slugOf(x) != slug
    ensures NoDuplicates(names) ==> NoDuplicates(r)
    ensures |r| <= |names|
    decreases |names|
  {
    if names == [] then []
    else
      var rest := WithoutSlug(names[1..], slugOf, slug);
      assert NoDuplicates(names) ==> names[0] !in names[1..];
      assert names == [names[0]] + names[1..];
      (if slugOf(names[0]) == slug then [] else [names[0]]) + rest
  }

  /** No two of `names` share a slug. */
  predicate SlugsDistinct(names: seq<string>, slugOf: string -> string) {
    forall x, y :: x in names && y in names && slugOf(x) == slugOf(y) ==> x == y
  }

  /** Saving `name` over the names with other slugs keeps the slugs distinct. */
  lemma SlugsDistinctAfterSave(names: seq<string>, slugOf: string -> string, name: string)
    requires SlugsDistinct(names, slugOf)
    ensures SlugsDistinct(WithoutSlug(names, slugOf, slugOf(name)) + [name], slugOf)
  {
    var r := WithoutSlug(names, slugOf, slugOf(name)) + [name];
    assert forall x :: x in r ==> x == name || (x in names && slugOf(x) != slugOf(name));
  }

  /** Deleting a name keeps the slugs of the others distinct. */
  lemma SlugsDistinctWithout(names: seq<string>, slugOf: string -> string, n: string)
    requires SlugsDistinct(names, slugOf)
    ensures SlugsDistinct(Without(names, n), slugOf)
  {
  }

  /**
   * The validation of `DeleteModelPickerView`: the error it reports for
   * `name`, or `None` when the name is given and names a saved view.
   */
  function DeleteError(name: Option<string>, names: seq<string>): (error: Option<string>)
    ensures error.None? <==> Truthy(name) && name.value in names
    ensures !Truthy(name) ==> error == Some("View name is required")
    ensures Truthy(name) && name.value !in names ==>
      error == Some("View '" + name.value + "' does not exist")
  {
    if !Truthy(name) then Some("View name is required")
    else if name.value !in names then Some("View '" + name.value + "' does not exist")
    else None
  }

  /**
   * The dataset's saved views: their names in listing order and what is
   * stored under each name.
   */
  class SavedViewStore {
    var names: seq<string>
    var infos: map<string, ViewInfo>
    /** The store's URL slug of a view name; no two saved names share a slug. */
    const slugOf: string -> string

    ghost predicate Valid()
      reads this
    {
      && NoDuplicates(names)
      && (forall n :: n in infos <==> n in names)
      && SlugsDistinct(names, slugOf)
    }

    /** `list_saved_views()` with `get_saved_view_info` of each name. */
    function Listing(): (r: seq<SavedView>)
      reads this
      requires Valid()
      ensures |r| == |names|
      ensures forall i :: 0 <= i < |names| ==> r[i] == SavedView(names[i], infos[names[i]])
    {
      seq(|names|, i reads this requires 0 <= i < |names| && Valid() => SavedView(names[i], infos[names[i]]))
    }

    constructor (slugOf: string -> string)
      ensures Valid() && names == [] && infos == map[] && this.slugOf == slugOf
    {
      names := [];
      infos := map[];
      this.slugOf := slugOf;
    }

    /**
     * The store's `save_view(name, view, description, color, overwrite=True)`:
     * every saved view whose name has the slug of `name` (`name` itself
     * included) is deleted, then `name` is appended to the listing with the
     * given description, color and view, created and modified `now`.
     */
    method SaveView(name: string, description: string, color: Option<string>, view: set<string>, now: Timestamp)
      requires Valid()
      modifies this
      ensures Valid()
      ensures names == WithoutSlug(old(names), slugOf, slugOf(name)) + [name]
      ensures forall n :: n in infos <==> n == name || (n in old(infos) && slugOf(n) != slugOf(name))
      ensures infos[name] == ViewInfo(Some(description), color, view, Some(now), Some(now))
      ensures forall n :: n in infos && n != name ==> infos[n] == old(infos)[n]
    {
      var slug := slugOf(name);
      var kept := WithoutSlug(names, slugOf, slug);
      SlugsDistinctAfterSave(names, slugOf, name);
      infos := map n | n in infos && slugOf(n) != slug :: infos[n];
      names := kept + [name];
      infos := infos[name := ViewInfo(Some(description), color, view, Some(now), Some(now))];
    }

    /**
     * `SaveModelPickerView.execute`: saves the current view under `name`
     * with the marked description and returns the name. Views whose name
     * shares the slug of `name` are replaced and all others are kept; the
     * saved view is the last preset listed, with its cleaned description.
     */
    method SaveModelPickerView(name: string, description: Option<string>, color: Option<string>,
                               currentView: set<string>, now: Timestamp)
      returns (viewName: string)
      requires Valid()
      modifies this
      ensures Valid()
      ensures viewName == name
      ensures name in infos &&
        infos[name] == ViewInfo(Some(FullDescription(description)), color, currentView, Some(now), Some(now))
      ensures forall n :: n != name ==>
        (n in infos <==> n in old(infos) && slugOf(n) != slugOf(name)) &&
        (n in infos ==> infos[n] == old(infos)[n])
      ensures names == WithoutSlug(old(names), slugOf, slugOf(name)) + [name]
      ensures var listed := PickerViews(Listing());
        listed != [] &&
        listed[|listed| - 1] == ViewSummary(name, CleanDescription(FullDescription(description)), Some(now), Some(now))
    {
      var fullDescription := FullDescription(description);
      SaveView(name, fullDescription, color, currentView, now);
      viewName := name;
      var info := infos[name];
      assert Summary(SavedView(name, info)) ==
        ViewSummary(name, CleanDescription(fullDescription), Some(now), Some(now)) by {
        ListedDescriptionOfSaved(description);
      }
      ghost var listing := Listing();
      assert listing[|listing| - 1] == SavedView(name, info);
      PickerViewsLast(listing);
    }

    /**
     * `ListModelPickerViews.execute`: the presets, in listing order, with
     * their cleaned descriptions, and how many there are.
     */
    method ListModelPickerViews() returns (views: seq<ViewSummary>, totalCount: nat)
      requires Valid()
      ensures views == PickerViews(Listing())
      ensures totalCount == |views| <= |names|
    {
      var allSavedViews := names;
      ghost var listing := Listing();
      views := [];
      for i := 0 to |allSavedViews|
        invariant views == PickerViews(listing[..i])
      {
        var viewName := allSavedViews[i];
        var info := infos[viewName];
        assert listing[i] == SavedView(viewName, info);
        PickerViewsSnoc(listing, i);
        var description := info.description;
        if Truthy(description) && StartsWith(description.value, Marker) {
          var cleanDescription := Strip(ReplaceAll(description.value, Marker, ""));
          views := views + [ViewSummary(viewName, cleanDescription, info.createdAt, info.lastModifiedAt)];
        }
      }
      assert listing[..|allSavedViews|] == listing;
      PickerViewsLength(listing);
      totalCount := |views|;
    }

    /**
     * `DeleteModelPickerView.execute`: without a name, or with a name that
     * is not saved, reports the error and changes nothing; otherwise removes
     * exactly that view and keeps every other one.
     */
    method DeleteModelPickerView(name: Option<string>) returns (r: DeleteResult)
      requires Valid()
      modifies this
      ensures Valid()
      ensures DeleteError(name, old(names)).Some? ==>
        r == DeleteFailed(DeleteError(name, old(names)).value) && names == old(names) && infos == old(infos)
      ensures DeleteError(name, old(names)).None? ==>
        && r == Deleted(name.value)
        && names == Without(old(names), name.value)
        && infos == old(infos) - {name.value}
    {
      var error := DeleteError(name, names);
      if error.Some? {
        return DeleteFailed(error.value);
      }
      var viewName := name.value;
      SlugsDistinctWithout(names, slugOf, viewName);
      names := Without(names, viewName);
      infos := infos - {viewName};
      r := Deleted(viewName);
    }
  }
}
