/** adapters/null.go: the null-handling adapter. */
module NullAdapter {
  import opened Results
  import opened Values
  import opened Streams
  import opened Config

  datatype NullHandlingAdapter = NullHandlingAdapter(id: int, task: string, adapter: string, handling: string)

  /** `NewNullHandlingAdapter`: reads the `handling` argument; only a
      missing adapter entry (a nil dereference) aborts. */
  function NewNullHandlingAdapter(id: int, cfg: Config, taskName: string, adapterName: string): (r: Result<NullHandlingAdapter>)
    ensures r.Ok? <==> GetAdapterConfig(cfg, taskName, adapterName).Ok?
    ensures r.Ok? ==> r.value == NullHandlingAdapter(id, taskName, adapterName,
                                   ArgString(cfg.tasks[taskName].adapters[adapterName].arguments, "handling"))
  {
    match GetAdapterConfig(cfg, taskName, adapterName)
    case Err(m) => Err(m)
    case Ok(ac) => Ok(NullHandlingAdapter(id, taskName, adapterName, ArgString(ac.arguments, "handling")))
  }

  predicate HasNull(row: Row)
  {
    exists k :: k in row && row[k] == Null
  }

  /** The body of `Run`'s row loop: under `"remove"` the row loses exactly
      its nil-valued fields; under any other handling a row with a nil
      field aborts and a nil-free row passes unchanged. */
  function HandleNulls(adp: NullHandlingAdapter, row: Row): (r: Result<Row>)
    ensures r.Err? <==> adp.handling != "remove" && HasNull(row)
    ensures r.Ok? ==> forall k :: k in r.value ==> k in row && r.value[k] == row[k] && r.value[k] != Null
    ensures r.Ok? ==> forall k :: k in row && row[k] != Null ==> k in r.value
  {
    if adp.handling == "remove" then Ok(map k | k in row && row[k] != Null :: row[k])
    else if HasNull(row) then Err("Invalid null handling type: " + adp.handling)
    else Ok(row)
  }

  function RowFn(adp: NullHandlingAdapter): Row -> Result<Row>
  {
    row => HandleNulls(adp, row)
  }

  /** One row through `Run`'s loop over the row's own entries, deleting
      nil-valued ones as it meets them. The map's iteration order is
      unspecified, so each step picks any entry not yet visited. */
  method ProcessRow(adp: NullHandlingAdapter, row0: Row) returns (r: Result<Row>)
    ensures r == HandleNulls(adp, row0)
  {
    var row := row0;
    var pending := row0.Keys;
    while pending != {}
      invariant pending <= row0.Keys && pending <= row.Keys && row.Keys <= row0.Keys
      invariant forall k :: k in row ==> row[k] == row0[k]
      invariant forall k :: k in row0 && k !in pending ==> (k in row <==> row0[k] != Null)
      invariant adp.handling != "remove" ==> row == row0
      decreases |pending|
    {
      var field :| field in pending;
      pending := pending - {field};
      if row[field] == Null {
        if adp.handling == "remove" {
          row := row - {field};
        } else {
          return Err("Invalid null handling type: " + adp.handling);
        }
      }
    }
    if adp.handling == "remove" {
      assert row == map k | k in row0 && row0[k] != Null :: row0[k];
    }
    return Ok(row);
  }

  method Run(adp: NullHandlingAdapter, input: Stream) returns (out: Stream)
    ensures out == Pass(RowFn(adp), input)
  {
    var sent: seq<Row> := [];
    for i := 0 to |input.rows|
      invariant Apply(RowFn(adp), input.rows[..i]) == Progress(sent, false)
    {
      var r := ProcessRow(adp, input.rows[i]);
      if r.Err? {
        ApplyStopsAt(RowFn(adp), input.rows, i, sent);
        return Stream(sent, false);
      }
      ApplyExtend(RowFn(adp), input.rows, i, sent, r.value);
      sent := sent + [r.value];
    }
    assert input.rows[..|input.rows|] == input.rows;
    return Stream(sent, input.closed);
  }

  /** A handled row has no nil field left, so handling it again changes
      nothing, whatever the handling. */
  lemma HandleNullsIdempotent(adp: NullHandlingAdapter, row: Row)
    requires HandleNulls(adp, row).Ok?
    ensures !HasNull(HandleNulls(adp, row).value)
    ensures HandleNulls(adp, HandleNulls(adp, row).value) == HandleNulls(adp, row)
  {
    var once := HandleNulls(adp, row).value;
    var twice := HandleNulls(adp, once).value;
    assert twice.Keys == once.Keys;
    assert twice == once;
  }

  /** Rows without nil fields pass every null-handling adapter unchanged. */
  lemma NilFreeUnchanged(adp: NullHandlingAdapter, row: Row)
    requires !HasNull(row)
    ensures HandleNulls(adp, row) == Ok(row)
  {
    var r := HandleNulls(adp, row).value;
    assert r.Keys == row.Keys;
    assert r == row;
  }
}
