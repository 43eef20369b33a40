# Model picker: a Dafny model

This is a model of the FiftyOne "model picker" plugin (`__init__.py`). The
plugin lets a user choose which label fields a dataset view shows. Each
label field is usually one model's predictions or a ground truth. Hiding a
field also hides the schema paths its evaluation runs wrote, such as
per-sample TP/FP/FN counts and per-label match flags. The plugin also keeps
a free-text note per field and saves field selections as "presets". A
preset is a saved view whose description starts with `[Model Picker]`.

The dataset is a value, `Dataset.Dataset`. It holds:
- the sample and frame label schemas, in schema order;
- the flattened sample and frame schemas, meaning every field path;
- the evaluation runs, in listing order, each with its prediction and ground-truth field.

Every FiftyOne query the operators make is replaced by the part of this
value it returns. The two pieces of state the plugin changes are classes:
- `FieldNotes.NotesStore`: the notes entry of the dataset's info;
- `SavedViews.SavedViewStore`: the dataset's saved views.

The modules:

- `PyStrings` models the Python string operations the plugin relies on: truthiness, `startswith`, the `in` substring test, `replace` and `strip`.
- `Dataset` models the dataset and `get_all_label_fields`.
- `EvalMapping` models `generate_field_eval_mapping`.
- `ExcludeMapping` models `generate_field_exclude_mapping`.
- `FieldNotes` models `get_field_notes` and `UpdateFieldNotes`.
- `Metadata` models `GetLabelFieldsMetadata`.
- `Statistics` models the class-list step of `GetLabelFieldsStatistics`: sort, after dropping `None`.
- `Picker` models `ApplyModelPicker` and `ModelPicker`.
- `SavedViews` models `SaveModelPickerView`, `ListModelPickerViews` and `DeleteModelPickerView`.

Each loop of the modelled operators is a method whose contract ties its
result to a specification function or condition. The lemmas beside each
function state what it promises.

## Model

| member | source | states |
|---|---|---|
| PyStrings.Truthy | __init__.py:424 | defines Python truthiness of an optional string (also used at lines 109, 467 and 500): present and non-empty |
| PyStrings.StartsWith | __init__.py:467 | defines `str.startswith`: the string begins with the prefix |
| PyStrings.Contains | __init__.py:82 | defines the `in` substring test; `ContainsAt` states what it means |
| PyStrings.ContainsAt | __init__.py:82 | Python's `key in path` holds exactly when `key` occurs at some index of `path` |
| PyStrings.ReplaceAll | __init__.py:469 | defines `str.replace` for a non-empty pattern, scanning left to right without overlaps; the three `ReplaceAll…` lemmas below state its behaviour |
| PyStrings.ReplaceAllAbsent | __init__.py:469 | `replace` leaves a string without the pattern unchanged |
| PyStrings.ReplaceAllLeading | __init__.py:469 | `replace` substitutes a leading occurrence of the pattern, then resumes after it |
| PyStrings.ReplaceAllSkip | __init__.py:469 | `replace` keeps a leading character that cannot start the pattern |
| PyStrings.IsSpace | __init__.py:469 | defines the code points `str.strip()` removes, those for which `str.isspace()` holds |
| PyStrings.LStrip | __init__.py:469 | the result is a suffix of the input and does not start with whitespace |
| PyStrings.LStripCutsSpace | __init__.py:469 | everything `lstrip` cuts off is whitespace |
| PyStrings.RStrip | __init__.py:469 | the result is a prefix of the input and does not end with whitespace |
| PyStrings.RStripCutsSpace | __init__.py:469 | everything `rstrip` cuts off is whitespace |
| PyStrings.Strip | __init__.py:469 | `strip()` never lengthens the string and leaves no whitespace at either end |
| PyStrings.StripIsTrimmedSlice | __init__.py:469 | `strip()` returns a slice of the input, at the index the lemma returns, with only whitespace cut off on either side |
| PyStrings.StripTrimmed | __init__.py:469 | `strip()` returns a string without surrounding whitespace unchanged |
| PyStrings.StripLeadingSpace | __init__.py:469 | leading whitespace makes no difference to `strip()` |
| Dataset.AllPaths | __init__.py:67-74 | a path is in `all_fields` exactly when it is a sample schema path or a frame schema path; a missing frame schema contributes none |
| Dataset.Names | __init__.py:29-30 | the schema's field names, one per field, in schema order |
| Dataset.FrameLabelSchema | __init__.py:34-37 | defines the frame label schema, with a missing one read as empty |
| Dataset.AllLabelFields | __init__.py:24-39 | the sample label field names in schema order, then the frame label field names; a missing frame schema contributes nothing |
| Dataset.AllLabelFieldsMembers | __init__.py:24-39 | a name is a label field exactly when some field of the sample or frame label schema carries it |
| EvalMapping.RunRefs | __init__.py:50-59 | defines what one run appends to a field's list: its prediction entry, then its ground-truth entry |
| EvalMapping.EvalRefs | __init__.py:44-60 | defines a field's list after the runs are processed in order; `EvalRefsMember` and `EvalRefsCount` state its contents |
| EvalMapping.Lookup | __init__.py:152 | defines `mapping.get(field, [])` |
| EvalMapping.Appended | __init__.py:51-54 | appending to a `defaultdict(list)` gives the key an entry and puts the element at the end of its list; other keys are unchanged |
| EvalMapping.AppendIfLabel | __init__.py:50-59 | the append happens exactly when the field is a label field; otherwise the mapping is unchanged |
| EvalMapping.RunRefsEmpty | __init__.py:50-59 | a run adds to a field's list exactly when it names the field as prediction or as ground truth |
| EvalMapping.RunRefsMember | __init__.py:50-59 | one run adds `(key, role)` to a field's list exactly when it has that key and names the field in that role |
| EvalMapping.AddRun | __init__.py:47-59 | one iteration appends the run's prediction entry, then its ground-truth entry, to the lists of the label fields it names, and to nothing else; a field gets a key exactly when something is appended to it |
| EvalMapping.GenerateFieldEvalMapping | __init__.py:42-60 | only label fields with at least one entry get a key; a label field's list is `EvalRefs` of all runs; anything else looks up as `[]` |
| EvalMapping.EvalRefsStep | __init__.py:47-59 | processing run `i` appends that run's entries to the lists built from the runs before it |
| EvalMapping.EvalRefsAppend | __init__.py:46-59 | the lists are built run by run: those of two batches of runs are the concatenation of each batch's lists |
| EvalMapping.SingleRunRefs | __init__.py:50-59 | a run that uses a field as both prediction and ground truth adds the `prediction` entry before the `ground_truth` entry |
| EvalMapping.WithRoleAppend | __init__.py:50-59 | filtering entries by role distributes over concatenation |
| EvalMapping.WithRoleRunRefs | __init__.py:50-59 | one run adds at most one entry of each role, exactly when it names the field in that role |
| EvalMapping.RoleIndicesSnoc | __init__.py:46-59 | adding a run adds one to a role's count exactly when the run names the field in that role |
| EvalMapping.EvalRefsCount | __init__.py:42-60 | a field has one entry per run naming it as prediction and one per run naming it as ground truth, and no others |
| EvalMapping.EvalRefsMember | __init__.py:42-60 | `(key, role)` is in a field's list exactly when some listed run with that key names the field in that role |
| EvalMapping.EvalRefsSound | __init__.py:42-60 | every entry of a field's list comes from a run that names the field in the entry's role |
| ExcludeMapping.ExcludeSet | __init__.py:77-83 | defines the set a label field's exclude list holds; `ExcludeSetMembers` states its members in terms of the runs |
| ExcludeMapping.MatchingPaths | __init__.py:82 | exactly the paths that contain the key and do not start with the field name |
| ExcludeMapping.MentionsKeyStep | __init__.py:80-82 | adding one more entry of the field's list extends "mentions a key" by exactly that run's key |
| ExcludeMapping.AssociatedFields | __init__.py:78-82 | the collected list holds the field itself, plus every schema path that mentions one of the field's keys and does not start with the field name |
| ExcludeMapping.GenerateFieldExcludeMapping | __init__.py:63-85 | every label field, and nothing else, gets an entry; each entry is the field's `ExcludeSet` |
| ExcludeMapping.ExcludeSetHasField | __init__.py:78 | hiding a field always excludes the field itself |
| ExcludeMapping.ExcludeSetMembers | __init__.py:63-85 | apart from the field, a path is excluded exactly when it is a schema path, does not start with the field name, and contains the key of a run that names the field as prediction or ground truth |
| FieldNotes.GetFieldNotes | __init__.py:8-13 | the stored notes when the dataset has them, otherwise the empty map |
| FieldNotes.NoteOf | __init__.py:152-153 | a field's note, or `""` when it has none |
| FieldNotes.UpdatedNotes | __init__.py:105-113 | after the update the field has a note exactly when the text is non-empty, and that note is the text; every other field keeps its note |
| FieldNotes.NoteAfterUpdate | __init__.py:100-118 | after an update the field shows the given text (or `""`); every other field shows what it showed before |
| FieldNotes.UpdateLastWins | __init__.py:105-113 | two updates of one field equal the last one alone |
| FieldNotes.NotesStore.constructor | __init__.py:11-12 | the store holds the notes entry of the dataset's info that `get_field_notes` reads |
| FieldNotes.NotesStore.UpdateFieldNotes | __init__.py:100-118 | returns success, and the stored entry becomes `UpdatedNotes` of the previous notes (an empty map when there were none) |
| Metadata.Describes | __init__.py:148-154 | defines a field's record (also built at lines 159-165): name, type, level, evaluation entries and note |
| Metadata.FieldRecords | __init__.py:146-154 | one record per schema field, in schema order; each has the field's name, type, level, evaluation entries and note |
| Metadata.GetLabelFieldsMetadata | __init__.py:133-171 | one record per sample label field and one per frame label field, each describing its field; `total_count` is their sum, which is the number of label fields |
| Metadata.RecordShowsUpdatedNote | __init__.py:100-118 | after `UpdateFieldNotes`, a record of the updated field carries the new note; other fields' records carry their old notes |
| Statistics.LessEq | __init__.py:237 | defines Python's `<=` on strings: lexicographic by code point, a prefix first |
| Statistics.Insert | __init__.py:237 | defines insertion of one element before the first element it is not greater than |
| Statistics.Sort | __init__.py:237 | defines `sorted` on strings as insertion sort; `SortSorted` and `SortPermutes` state its result |
| Statistics.ClassList | __init__.py:237 | defines the class list: sorted non-`None` values; `ClassListCorrect` states its result |
| Statistics.LessEqTotal | __init__.py:237 | Python's string ordering is total |
| Statistics.LessEqTransitive | __init__.py:237 | Python's string ordering is transitive |
| Statistics.Present | __init__.py:237 | dropping `None` keeps exactly the classes that are present |
| Statistics.PrependSorted | __init__.py:237 | a sorted list stays sorted with an element in front that is not greater than any of its elements |
| Statistics.InsertMembers | __init__.py:237 | inserting adds the element and keeps every other one |
| Statistics.InsertPermutes | __init__.py:237 | inserting adds exactly one occurrence of the element |
| Statistics.InsertSorted | __init__.py:237 | inserting into a sorted list keeps it sorted |
| Statistics.SortSorted | __init__.py:237 | `sorted` returns a sorted list |
| Statistics.SortPermutes | __init__.py:237 | `sorted` returns a permutation of its input |
| Statistics.ClassListCorrect | __init__.py:237 | the class list is sorted, is a permutation of the non-`None` values, and holds a class exactly when the input does |
| Picker.FieldsToHide | __init__.py:289 | the label fields that are not selected, and never more than there are label fields |
| Picker.FieldsToHideAppend | __init__.py:289 | fields are hidden one by one, in catalog order |
| Picker.Unchecked | __init__.py:347-350 | the label fields whose checkbox is cleared |
| Picker.UnionOf | __init__.py:292-294 | defines the union of the hidden fields' exclude sets, accumulated in order |
| Picker.UnionOfMembers | __init__.py:292-294 | a path is excluded exactly when some hidden field's exclude set holds it |
| Picker.UnionOfBounds | __init__.py:292-297 | every hidden field is excluded; only hidden fields and schema paths are excluded; the exclusion is empty exactly when nothing is hidden |
| Picker.UnionOfSameFields | __init__.py:292-297 | what is excluded depends only on which fields are hidden, not on their order or repetition |
| Picker.CollectExcluded | __init__.py:292-294 | the `extend` loop collects the union of the hidden fields' exclude sets |
| Picker.ApplyModelPicker | __init__.py:284-303 | `excluded_count` is the number of unselected label fields; `selected_count` is the number of selected fields; the view is replaced exactly when something is hidden, and then excludes the union of their exclude sets |
| Picker.UncheckedFields | __init__.py:347-350 | the loop collects the unchecked label fields in catalog order |
| Picker.ModelPicker | __init__.py:343-358 | the new view excludes the union of the unchecked fields' exclude sets, so it excludes every unchecked label field |
| Picker.PickersAgree | __init__.py:284-303 | the form and the panel hide the same fields in the same order when the checked boxes are exactly the selected fields |
| SavedViews.FullDescription | __init__.py:424-428 | the stored description starts with the marker; it is the marker, a space and the user's text, or the marker alone when the text is missing or empty |
| SavedViews.IsPickerDescription | __init__.py:467 | defines the listing filter: a present, non-empty description that starts with the marker |
| SavedViews.CleanDescription | __init__.py:469 | defines the cleaned description: every marker removed, then stripped |
| SavedViews.Summary | __init__.py:471-476 | defines a listing entry: name, cleaned description, `created_at`, `last_modified_at` |
| SavedViews.PickerViews | __init__.py:460-476 | defines the listing: the summaries of the views with a marked description, in listing order; the lemmas below state what it holds |
| SavedViews.PickerViewsSnoc | __init__.py:461-476 | one more saved view adds its summary at the end of the listing exactly when its description carries the marker |
| SavedViews.PickerViewsLast | __init__.py:460-476 | when the last saved view is a preset, the listing ends with its summary |
| SavedViews.PickerViewsAppend | __init__.py:461-476 | the listing filters view by view and keeps the store's order |
| SavedViews.PickerViewsSound | __init__.py:461-476 | every listed entry is the summary of a saved view whose description starts with the marker; the lemma returns that view's index |
| SavedViews.PickerViewsComplete | __init__.py:461-476 | every saved view whose description starts with the marker is listed with its summary |
| SavedViews.PickerViewsLength | __init__.py:456-481 | there are never more presets than saved views |
| SavedViews.CleanAfterPrefix | __init__.py:469 | removing a leading pattern and the space after it, then stripping, leaves the stripped rest |
| SavedViews.CleanPrefixAlone | __init__.py:469 | the marker alone cleans to `""` |
| SavedViews.ListedDescriptionOfSaved | __init__.py:424-428 | a description written by the save passes the listing filter; it is listed with the marker and surrounding whitespace removed, or as `""` when none was given |
| SavedViews.PlainDescriptionRoundTrip | __init__.py:417-481 | a description without the marker and without surrounding whitespace is listed back exactly as it was saved |
| SavedViews.Without | __init__.py:510 | the names except the deleted one, in order and still without duplicates; one fewer when the name was present |
| SavedViews.WithoutSlug | __init__.py:430-436 | the names an overwriting save keeps: exactly those whose slug differs from the saved name's, in order and still without duplicates |
| SavedViews.SlugsDistinctAfterSave | __init__.py:430-436 | after an overwriting save, no two saved names share a slug |
| SavedViews.SlugsDistinctWithout | __init__.py:510 | deleting a view keeps the slugs of the others distinct |
| SavedViews.DeleteError | __init__.py:498-507 | "View name is required" for a missing or empty name; "View '<name>' does not exist" for an unknown name; no error exactly when the name is saved |
| SavedViews.SavedViewStore.Listing | __init__.py:458-463 | one entry per saved name, in order, each with its stored info |
| SavedViews.SavedViewStore.SaveView | __init__.py:430-436 | overwrite save: every view whose name has the saved name's slug is deleted, and the name is appended last with the given description, color and view, created and modified `now` |
| SavedViews.SavedViewStore.SaveModelPickerView | __init__.py:417-441 | returns the name; saves the view under it with the marked description and fresh timestamps; views with the same slug are replaced and all others kept unchanged and in their order, with the saved name last; the saved view is the last preset listed, with its cleaned description |
| SavedViews.SavedViewStore.ListModelPickerViews | __init__.py:456-481 | the presets in store order, each with its cleaned description and timestamps; `total_count` is their number |
| SavedViews.SavedViewStore.DeleteModelPickerView | __init__.py:496-520 | on a missing or unknown name, returns the error and changes nothing; otherwise removes exactly that view, keeps the others in order, and returns its name |

## Left out

- I/O and FiftyOne calls are not modelled: schema queries, `list_evaluations`, `load_evaluation_results`, `exclude_fields`, `set_view`, `dataset.save`, `ctx.trigger("reload_dataset")` and the persistence behind the saved-view store. The dataset is a value, and the saved views are a class.
- SavedViews.SavedViewStore.SaveView: FiftyOne's `save_view` is not part of this model. Its contract is an assumption about FiftyOne's store: an overwrite deletes every saved view whose name has the same URL slug, then appends the new view, created and modified `now`. The slug function (`to_slug`) is not modelled either; it is the store's `slugOf` constant.
- The view a preset saves is modelled as the set of paths it excludes. The view object itself is opaque to the plugin.
- Timestamps: the clock is the `now` parameter of `SaveView`, and timestamps are only passed through.
- `GetLabelFieldsStatistics` is not modelled beyond its class-list step (line 237). Label counting and `distinct` are database queries, and the per-type branches only choose which path to query.
- The UI builders (`config`, `resolve_input`, `resolve_placement`), `register` and the browser-side panel are not modelled. They build forms and contain no logic on the model's data.
- The order of `list(set(...))` in the exclude mapping and in `ApplyModelPicker` is not modelled, because Python does not specify it. Exclude lists and the view's excluded paths are sets.
- `Picker.ModelPicker` requires a checkbox value for every label field. The source indexes `ctx.params[label]` and would raise `KeyError` otherwise. Checkbox values are booleans, not arbitrary truthy values.
- `Picker.CollectExcluded` requires every hidden field to have an entry. In both callers the hidden fields are label fields, so `field_exclude_mapping.get(field, [])` never falls back to `[]`.
- `SavedViews.SavedViewStore.DeleteModelPickerView` does not model the `except Exception` branch. The store's deletion is total here, so that branch cannot be taken. The operator also deletes any saved view, not only presets, which is what the source does.
- Operator parameters are typed: `field_name` and `name` in `UpdateFieldNotes` and `SaveModelPickerView` are strings, and the texts are optional strings. A `None` field name or view name is not modelled.
- Strings are sequences of Unicode scalar values. Lone surrogates, which a Python `str` may hold, are not modelled.
- Notes are a plain map in the store's entry. The truthiness test on `dataset.info` is the entry being absent.
