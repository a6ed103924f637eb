/** adapters/fields.go: the cast-to-boolean adapter, and the boolean cast
    it shares with changers/fields.go. */
module FieldsAdapter {
  import opened Results
  import opened Text
  import opened Values
  import opened Rows
  import opened Streams

  /** `CastToBooleanAdapter`: its task, its position among the task's
      adapters and the fields it casts. */
  datatype CastToBooleanAdapter = CastToBooleanAdapter(task: string, index: int, fields: seq<string>)

  /** The printed forms, once lowered, that cast to true. */
  predicate Truthy(v: Value)
  {
    ToLower(Show(v)) in {"1", "yes", "true"}
  }

  function BooleanUpdate(): Value -> Option<Value>
  {
    v => Some(Bool(Truthy(v)))
  }

  /** The field loop of both copies of the boolean cast. It never aborts. */
  function CastFields(fields: seq<string>, row: Row): (r: Row)
    ensures r.Keys == row.Keys
    ensures forall k :: k in row && k !in fields ==> r[k] == row[k]
  {
    UpdateFieldsTotal(BooleanUpdate(), SkipNone, fields, row);
    UpdateFields(BooleanUpdate(), SkipNone, fields, row).value
  }

  function RowFn(adp: CastToBooleanAdapter): Row -> Result<Row>
  {
    row => Ok(CastFields(adp.fields, row))
  }

  /** One row through the field loop of `Run`, updating it in place. */
  method ProcessRow(adp: CastToBooleanAdapter, row0: Row) returns (row: Row)
    ensures row == CastFields(adp.fields, row0)
  {
    UpdateFieldsTotal(BooleanUpdate(), SkipNone, adp.fields, row0);
    row := row0;
    for i := 0 to |adp.fields|
      invariant UpdateFields(BooleanUpdate(), SkipNone, adp.fields, row0) == UpdateFields(BooleanUpdate(), SkipNone, adp.fields[i..], row)
    {
      var field := adp.fields[i];
      assert adp.fields[i..][0] == field && adp.fields[i..][1..] == adp.fields[i + 1..];
      if field !in row {
        continue;
      }
      var lowered := ToLower(Show(row[field]));
      ghost var w := BooleanUpdate()(row[field]).value;
      if lowered == "1" || lowered == "yes" || lowered == "true" {
        assert w == Bool(true);
        row := row[field := Bool(true)];
      } else {
        assert w == Bool(false);
        row := row[field := Bool(false)];
      }
    }
  }

  method Run(adp: CastToBooleanAdapter, input: Stream) returns (out: Stream)
    ensures out == Pass(RowFn(adp), input)
  {
    var sent: seq<Row> := [];
    for i := 0 to |input.rows|
      invariant Apply(RowFn(adp), input.rows[..i]) == Progress(sent, false)
    {
      var row := ProcessRow(adp, input.rows[i]);
      ApplyExtend(RowFn(adp), input.rows, i, sent, row);
      sent := sent + [row];
    }
    assert input.rows[..|input.rows|] == input.rows;
    return Stream(sent, input.closed);
  }

  /** A cast value casts to itself: true prints as "true", false as "false". */
  lemma BooleanSettled()
    ensures Settled(BooleanUpdate(), SkipNone)
  {
    forall v, w | Step(BooleanUpdate(), SkipNone, v) == Some(w)
      ensures Step(BooleanUpdate(), SkipNone, w) == Some(w)
    {
      assert ToLower(Show(w)) == Show(w);
    }
  }

  /** Every listed, present field becomes true exactly when its lowered
      printed form is "1", "yes" or "true", and false otherwise, nil
      included; absent fields are not added and unlisted fields are kept. */
  lemma CastFieldsSpec(fields: seq<string>, row: Row)
    ensures CastFields(fields, row).Keys == row.Keys
    ensures forall k :: k in row && k in fields ==> CastFields(fields, row)[k] == Bool(Truthy(row[k]))
    ensures forall k :: k in row && k !in fields ==> CastFields(fields, row)[k] == row[k]
    ensures forall k :: k in row && k in fields && row[k] == Null ==> CastFields(fields, row)[k] == Bool(false)
  {
    BooleanSettled();
    UpdateFieldsSettled(BooleanUpdate(), SkipNone, fields, row);
    assert ToLower(Show(Null)) == "<nil>";
  }

  /** Casting twice is casting once. */
  lemma CastFieldsIdempotent(fields: seq<string>, row: Row)
    ensures CastFields(fields, CastFields(fields, row)) == CastFields(fields, row)
  {
    BooleanSettled();
    UpdateFieldsTotal(BooleanUpdate(), SkipNone, fields, row);
    UpdateFieldsIdempotent(BooleanUpdate(), SkipNone, fields, row);
  }

  /** Only the set of listed fields matters: listing a field twice, or in
      another order, gives the same row. */
  lemma CastFieldsSameSet(fields: seq<string>, fields': seq<string>, row: Row)
    requires forall k :: k in fields <==> k in fields'
    ensures CastFields(fields, row) == CastFields(fields', row)
  {
    BooleanSettled();
    UpdateFieldsTotal(BooleanUpdate(), SkipNone, fields, row);
    UpdateFieldsSameSet(BooleanUpdate(), SkipNone, fields, fields', row);
  }
}
