/** changers/fields.go: the stand-alone boolean cast and its stream
    wrapper. */
module Changers {
  import opened Text
  import opened Values
  import opened Rows
  import opened Streams
  import opened FieldsAdapter

  /** `castGivenFieldsToBoolean`: updates the row in place and returns it. */
  method CastGivenFieldsToBoolean(row0: Row, fields: seq<string>) returns (row: Row)
    ensures row == CastFields(fields, row0)
  {
    UpdateFieldsTotal(BooleanUpdate(), SkipNone, fields, row0);
    row := row0;
    for i := 0 to |fields|
      invariant UpdateFields(BooleanUpdate(), SkipNone, fields, row0) == UpdateFields(BooleanUpdate(), SkipNone, fields[i..], row)
    {
      var field := fields[i];
      assert fields[i..] == [field] + fields[i + 1..];
      if field !in row {
        continue;
      }
      var lowered := ToLower(Show(row[field]));
      if lowered == "1" || lowered == "yes" || lowered == "true" {
        row := row[field := Bool(true)];
      } else {
        row := row[field := Bool(false)];
      }
    }
  }

  /** `CastToBoolean`: emits the cast of every input row, in order, and
      closes its output when its input closes. */
  method CastToBoolean(input: Stream, fields: seq<string>) returns (out: Stream)
    ensures |out.rows| == |input.rows|
    ensures forall i :: 0 <= i < |input.rows| ==> out.rows[i] == CastFields(fields, input.rows[i])
    ensures out.closed == input.closed
  {
    var sent: seq<Row> := [];
    for i := 0 to |input.rows|
      invariant |sent| == i
      invariant forall j :: 0 <= j < i ==> sent[j] == CastFields(fields, input.rows[j])
    {
      var row := CastGivenFieldsToBoolean(input.rows[i], fields);
      sent := sent + [row];
    }
    return Stream(sent, input.closed);
  }
}
