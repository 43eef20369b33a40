/**
 * `GetLabelFieldsMetadata.execute`: one record per label field, sample
 * fields and frame fields in separate lists, each record carrying the
 * field's evaluation roles and its note.
 */
module Metadata {
  import opened Wrappers
  import opened Dataset
  import opened EvalMapping
  import opened FieldNotes

  datatype FieldRecord = FieldRecord(
    name: string,
    docType: string,
    level: Level,
    evaluations: seq<EvalRef>,
    notes: string
  )

  datatype LabelFieldsMetadata = LabelFieldsMetadata(
    sampleFields: seq<FieldRecord>,
    frameFields: seq<FieldRecord>,
    totalCount: nat
  )

  /**
   * `r` is the record of schema field `entry` at `level`: its name and type,
   * the level of the list it is in, its evaluation entries over all listed
   * runs, and its note (`""` when it has none).
   */
  predicate Describes(r: FieldRecord, entry: SchemaField, level: Level,
                      evals: seq<EvalConfig>, notes: map<string, string>)
  {
    && r.name == entry.name
    && r.docType == entry.docType
    && r.level == level
    && r.evaluations == EvalRefs(evals, entry.name)
    && r.notes == NoteOf(notes, entry.name)
  }

  /** The records of one schema, built in schema order (one of the two loops of the source). */
  method FieldRecords(schema: seq<SchemaField>, level: Level,
                      evalMapping: map<string, seq<EvalRef>>, notes: map<string, string>,
                      ghost evals: seq<EvalConfig>)
    returns (records: seq<FieldRecord>)
    requires forall i :: 0 <= i < |schema| ==>
      Lookup(evalMapping, schema[i].name) == EvalRefs(evals, schema[i].name)
    ensures |records| == |schema|
    ensures forall i :: 0 <= i < |schema| ==> Describes(records[i], schema[i], level, evals, notes)
  {
    records := [];
    for i := 0 to |schema|
      invariant |records| == i
      invariant forall k :: 0 <= k < i ==> Describes(records[k], schema[k], level, evals, notes)
    {
      var entry := schema[i];
      records := records + [FieldRecord(entry.name, entry.docType, level,
                                        Lookup(evalMapping, entry.name), NoteOf(notes, entry.name))];
    }
  }

  /**
   * The metadata the panel loads: a record for every sample label field and
   * every frame label field, in schema order, and their total number.
   */
  method GetLabelFieldsMetadata(ds: Dataset, storedNotes: Option<map<string, string>>)
    returns (md: LabelFieldsMetadata)
    ensures |md.sampleFields| == |ds.sampleLabelSchema|
    ensures |md.frameFields| == |FrameLabelSchema(ds)|
    ensures md.totalCount == |ds.sampleLabelSchema| + |FrameLabelSchema(ds)| == |AllLabelFields(ds)|
    ensures forall i :: 0 <= i < |md.sampleFields| ==>
      Describes(md.sampleFields[i], ds.sampleLabelSchema[i], Sample, ds.evaluations, GetFieldNotes(storedNotes))
    ensures forall i :: 0 <= i < |md.frameFields| ==>
      Describes(md.frameFields[i], FrameLabelSchema(ds)[i], Frame, ds.evaluations, GetFieldNotes(storedNotes))
  {
    var allLabelFields := AllLabelFields(ds);
    var evalMapping := GenerateFieldEvalMapping(ds.evaluations, allLabelFields);
    var fieldNotes := GetFieldNotes(storedNotes);
    var n := |ds.sampleLabelSchema|;
    forall j | 0 <= j < |FrameLabelSchema(ds)|
      ensures FrameLabelSchema(ds)[j].name in allLabelFields
    {
      assert allLabelFields[n..][j] == FrameLabelSchema(ds)[j].name;
    }
    var sampleFields := FieldRecords(ds.sampleLabelSchema, Sample, evalMapping, fieldNotes, ds.evaluations);
    var frameFields := FieldRecords(FrameLabelSchema(ds), Frame, evalMapping, fieldNotes, ds.evaluations);
    md := LabelFieldsMetadata(sampleFields, frameFields, |sampleFields| + |frameFields|);
  }

  /**
   * A note saved by `UpdateFieldNotes` is the note every later metadata
   * record of that field carries, and other fields' records are unaffected.
   */
  lemma RecordShowsUpdatedNote(stored: Option<map<string, string>>, field: string, text: Option<string>,
                               r: FieldRecord, entry: SchemaField, level: Level, evals: seq<EvalConfig>)
    requires Describes(r, entry, level, evals, GetFieldNotes(Some(UpdatedNotes(GetFieldNotes(stored), field, text))))
    ensures entry.name == field ==> r.notes == text.GetOr("")
    ensures entry.name != field ==> r.notes == NoteOf(GetFieldNotes(stored), entry.name)
  {
    NoteAfterUpdate(GetFieldNotes(stored), field, text, entry.name);
  }
}
