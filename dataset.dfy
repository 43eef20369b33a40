/**
 * The dataset as the plugin sees it. Every FiftyOne query the operators make
 * is replaced by the value it returns: the label-field schemas, the flattened
 * schemas (every field path, nested ones included) and the evaluation runs.
 */
module Dataset {
  import opened Wrappers

  /** A top-level label field: its name and its label document type (`Detections`, ...). */
  datatype SchemaField = SchemaField(name: string, docType: string)

  /** Whether a field is stored per sample or per video frame. */
  datatype Level = Sample | Frame

  /** One evaluation run: its key and the prediction and ground-truth fields it compares. */
  datatype EvalConfig = EvalConfig(key: string, predField: string, gtField: string)

  datatype Dataset = Dataset(
    /** `get_field_schema(embedded_doc_type=fo.Label)`, in schema order. */
    sampleLabelSchema: seq<SchemaField>,
    /** `get_frame_field_schema(embedded_doc_type=fo.Label)`; `None` for datasets without frames. */
    frameLabelSchema: Option<seq<SchemaField>>,
    /** The keys of `get_field_schema(flat=True)`. */
    samplePaths: seq<string>,
    /** The keys of `get_frame_field_schema(flat=True)`; `None` for datasets without frames. */
    framePaths: Option<seq<string>>,
    /** `list_evaluations()` in listing order, each with its run's configuration. */
    evaluations: seq<EvalConfig>
  )

  /** The frame label schema, empty when the dataset has none. */
  function FrameLabelSchema(ds: Dataset): seq<SchemaField> {
    ds.frameLabelSchema.GetOr([])
  }

  /** Every sample path followed by every frame path (`all_fields` of the exclude mapping). */
  function AllPaths(ds: Dataset): (r: seq<string>)
    ensures forall p :: p in r <==> p in ds.samplePaths || p in ds.framePaths.GetOr([])
  {
    ds.samplePaths + ds.framePaths.GetOr([])
  }

  /** The names of a schema's fields, in schema order. */
  function Names(schema: seq<SchemaField>): (r: seq<string>)
    ensures |r| == |schema|
    ensures forall i :: 0 <= i < |schema| ==> r[i] == schema[i].name
  {
    seq(|schema|, i requires 0 <= i < |schema| => schema[i].name)
  }

  /**
   * `get_all_label_fields`: the sample label fields in schema order, then the
   * frame label fields; a missing frame schema contributes nothing.
   */
  function AllLabelFields(ds: Dataset): (r: seq<string>)
    ensures |r| == |ds.sampleLabelSchema| + |FrameLabelSchema(ds)|
    ensures r[..|ds.sampleLabelSchema|] == Names(ds.sampleLabelSchema)
    ensures r[|ds.sampleLabelSchema|..] == Names(FrameLabelSchema(ds))
    ensures ds.frameLabelSchema == None ==> r == Names(ds.sampleLabelSchema)
  {
    var sample := Names(ds.sampleLabelSchema);
    var r := sample + Names(FrameLabelSchema(ds));
    assert r[..|sample|] == sample;
    r
  }

  /** A name is a label field exactly when some field of either label schema carries it. */
  lemma AllLabelFieldsMembers(ds: Dataset, f: string)
    ensures f in AllLabelFields(ds) <==>
      (exists i :: 0 <= i < |ds.sampleLabelSchema| && ds.sampleLabelSchema[i].name == f) ||
      (exists j :: 0 <= j < |FrameLabelSchema(ds)| && FrameLabelSchema(ds)[j].name == f)
  {
    var sample := Names(ds.sampleLabelSchema);
    var frame := Names(FrameLabelSchema(ds));
    var r := AllLabelFields(ds);
    assert r == r[..|sample|] + r[|sample|..];
    assert r == sample + frame;
    if f in sample {
      var i :| 0 <= i < |sample| && sample[i] == f;
      assert ds.sampleLabelSchema[i].name == f;
    }
    if f in frame {
      var j :| 0 <= j < |frame| && frame[j] == f;
      assert FrameLabelSchema(ds)[j].name == f;
    }
    if i :| 0 <= i < |ds.sampleLabelSchema| && ds.sampleLabelSchema[i].name == f {
      assert sample[i] == f;
    }
    if j :| 0 <= j < |FrameLabelSchema(ds)| && FrameLabelSchema(ds)[j].name == f {
      assert frame[j] == f;
    }
  }
}
