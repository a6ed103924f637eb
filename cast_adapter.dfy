/** adapters/cast.go: the cast-to-datatype adapter. */
module CastAdapter {
  import opened Results
  import opened Text
  import opened Values
  import opened Rows
  import opened Streams
  import opened Config
  import opened Library

  datatype CastToDatatypeAdapter = CastToDatatypeAdapter(
    id: int, task: string, adapter: string, fields: seq<string>,
    dataType: string, inLayout: string, outLayout: string)

  /** `NewCastToDatatypeAdapter`: reads the `fields` list and the
      `datatype`, `inlayout` and `outlayout` arguments. */
  function NewCastToDatatypeAdapter(id: int, cfg: Config, taskName: string, adapterName: string): (r: Result<CastToDatatypeAdapter>)
    ensures r.Ok? <==> GetAdapterConfig(cfg, taskName, adapterName).Ok? &&
                       ArgFields(GetAdapterConfig(cfg, taskName, adapterName).value.arguments).Ok?
    ensures r.Ok? ==> var args := cfg.tasks[taskName].adapters[adapterName].arguments;
                      r.value.id == id && r.value.task == taskName && r.value.adapter == adapterName &&
                      Ok(r.value.fields) == ArgFields(args) &&
                      r.value.dataType == ArgString(args, "datatype") &&
                      r.value.inLayout == ArgString(args, "inlayout") &&
                      r.value.outLayout == ArgString(args, "outlayout")
  {
    match GetAdapterConfig(cfg, taskName, adapterName)
    case Err(m) => Err(m)
    case Ok(ac) =>
      match ArgFields(ac.arguments)
      case Err(m) => Err(m)
      case Ok(fields) =>
        Ok(CastToDatatypeAdapter(id, taskName, adapterName, fields, ArgString(ac.arguments, "datatype"),
                                 ArgString(ac.arguments, "inlayout"), ArgString(ac.arguments, "outlayout")))
  }

  /** The cast of one printed value; `None` is a fatal error. The datetime
      branch discards its parse error, so it never fails. */
  function Cast(x: Externals, adp: CastToDatatypeAdapter, value: string): (r: Option<Value>)
    ensures adp.dataType !in {"boolean", "int64", "float64", "datetime"} ==> r.None?
    ensures adp.dataType == "datetime" ==> r.Some? && r.value.Str?
    ensures adp.dataType == "boolean" ==> (r.Some? <==> ToLower(value) in {"1", "t", "true", "0", "f", "false"})
    ensures adp.dataType == "boolean" && r.Some? ==> r.value == Bool(ToLower(value) in {"1", "t", "true"})
    ensures adp.dataType == "int64" && r.Some? ==> r.value.Int? && Int64Min <= r.value.i <= Int64Max
    ensures adp.dataType == "float64" ==> (r.Some? <==> x.parseFloat(value).Some?)
    ensures adp.dataType == "float64" && r.Some? ==> r.value == Other(x.parseFloat(value).value)
  {
    ParseBoolLowered(value);
    if adp.dataType == "boolean" then
      match ParseBool(ToLower(value))
      case None => None
      case Some(b) => Some(Bool(b))
    else if adp.dataType == "int64" then
      match ParseInt64(value)
      case None => None
      case Some(i) => Some(Int(i))
    else if adp.dataType == "float64" then
      match x.parseFloat(value)
      case None => None
      case Some(f) => Some(Other(f))
    else if adp.dataType == "datetime" then Some(Str(x.formatDatetime(adp.inLayout, adp.outLayout, value)))
    else None
  }

  function CastUpdate(x: Externals, adp: CastToDatatypeAdapter): Value -> Option<Value>
  {
    v => Cast(x, adp, Show(v))
  }

  /** The body of `Run`'s row loop, as a function of the row. */
  function CastRow(x: Externals, adp: CastToDatatypeAdapter, row: Row): (r: Result<Row>)
    ensures r.Ok? ==> r.value.Keys == row.Keys
    ensures r.Ok? ==> forall k :: k in row && k !in adp.fields ==> r.value[k] == row[k]
  {
    UpdateFields(CastUpdate(x, adp), SkipNull, adp.fields, row)
  }

  function RowFn(x: Externals, adp: CastToDatatypeAdapter): Row -> Result<Row>
  {
    row => CastRow(x, adp, row)
  }

  method ProcessRow(x: Externals, adp: CastToDatatypeAdapter, row0: Row) returns (r: Result<Row>)
    ensures r == CastRow(x, adp, row0)
  {
    var row := row0;
    for i := 0 to |adp.fields|
      invariant CastRow(x, adp, row0) == UpdateFields(CastUpdate(x, adp), SkipNull, adp.fields[i..], row)
    {
      var field := adp.fields[i];
      assert adp.fields[i..][0] == field && adp.fields[i..][1..] == adp.fields[i + 1..];
      if field !in row || row[field] == Null {
        continue;
      }
      var value := Show(row[field]);
      ghost var cast := CastUpdate(x, adp)(row[field]);
      assert cast == Cast(x, adp, value);
      var failed := false;
      if adp.dataType == "boolean" {
        var b := ParseBool(ToLower(value));
        failed := b.None?;
        if !failed {
          assert cast == Some(Bool(b.value));
          row := row[field := Bool(b.value)];
        }
      } else if adp.dataType == "int64" {
        var n := ParseInt64(value);
        failed := n.None?;
        if !failed {
          assert cast == Some(Int(n.value));
          row := row[field := Int(n.value)];
        }
      } else if adp.dataType == "float64" {
        var f := x.parseFloat(value);
        failed := f.None?;
        if !failed {
          row := row[field := Other(f.value)];
        }
      } else if adp.dataType == "datetime" {
        row := row[field := Str(x.formatDatetime(adp.inLayout, adp.outLayout, value))];
      } else {
        failed := true;
      }
      if failed {
        assert cast.None?;
        return Err("cannot convert field " + field);
      }
    }
    return Ok(row);
  }

  method Run(x: Externals, adp: CastToDatatypeAdapter, input: Stream) returns (out: Stream)
    ensures out == Pass(RowFn(x, adp), input)
  {
    var sent: seq<Row> := [];
    for i := 0 to |input.rows|
      invariant Apply(RowFn(x, adp), input.rows[..i]) == Progress(sent, false)
    {
      var r := ProcessRow(x, adp, input.rows[i]);
      if r.Err? {
        ApplyStopsAt(RowFn(x, adp), input.rows, i, sent);
        return Stream(sent, false);
      }
      ApplyExtend(RowFn(x, adp), input.rows, i, sent, r.value);
      sent := sent + [r.value];
    }
    assert input.rows[..|input.rows|] == input.rows;
    return Stream(sent, input.closed);
  }

  /** A boolean or int64 cast value casts to itself: `true`/`false` print
      and parse back, and so does every 64-bit integer. */
  lemma CastSettled(x: Externals, adp: CastToDatatypeAdapter)
    requires adp.dataType != "float64" && adp.dataType != "datetime"
    ensures Settled(CastUpdate(x, adp), SkipNull)
  {
    forall v, w | Step(CastUpdate(x, adp), SkipNull, v) == Some(w)
      ensures Step(CastUpdate(x, adp), SkipNull, w) == Some(w)
    {
      if v != Null {
        CastValueSettled(x, adp, Show(v), w);
      }
    }
  }

  /** One cast value, cast again, is left as it is. */
  lemma CastValueSettled(x: Externals, adp: CastToDatatypeAdapter, value: string, w: Value)
    requires adp.dataType != "float64" && adp.dataType != "datetime"
    requires Cast(x, adp, value) == Some(w)
    ensures w != Null && Cast(x, adp, Show(w)) == Some(w)
  {
    if adp.dataType == "boolean" {
      assert ToLower(Show(w)) == Show(w);
    } else {
      ParseSignedDecimal(w.i);
    }
  }

  /** Which listed fields a row presents to the cast. */
  predicate Casts(adp: CastToDatatypeAdapter, row: Row, k: string)
  {
    k in row && k in adp.fields && row[k] != Null
  }

  /** `"boolean"`: the row passes exactly when every cast field lowers to
      one of `strconv.ParseBool`'s spellings, and each becomes true exactly
      when it lowers to "1", "t" or "true". */
  lemma CastBooleanSpec(x: Externals, adp: CastToDatatypeAdapter, row: Row)
    requires adp.dataType == "boolean"
    ensures CastRow(x, adp, row).Ok? <==>
            forall k :: Casts(adp, row, k) ==> ToLower(Show(row[k])) in {"1", "t", "true", "0", "f", "false"}
    ensures CastRow(x, adp, row).Ok? ==>
            forall k :: Casts(adp, row, k) ==> CastRow(x, adp, row).value[k] == Bool(ToLower(Show(row[k])) in {"1", "t", "true"})
    ensures CastRow(x, adp, row).Ok? ==> forall k :: k in row && !Casts(adp, row, k) ==> CastRow(x, adp, row).value[k] == row[k]
  {
    CastSettled(x, adp);
    UpdateFieldsSettled(CastUpdate(x, adp), SkipNull, adp.fields, row);
    forall k | Casts(adp, row, k)
      ensures Step(CastUpdate(x, adp), SkipNull, row[k]).Some? <==> ToLower(Show(row[k])) in {"1", "t", "true", "0", "f", "false"}
      ensures Step(CastUpdate(x, adp), SkipNull, row[k]).Some? ==>
              Step(CastUpdate(x, adp), SkipNull, row[k]).value == Bool(ToLower(Show(row[k])) in {"1", "t", "true"})
    {
      ParseBoolLowered(Show(row[k]));
    }
  }

  /** `"int64"`: the row passes exactly when every cast field prints as a
      base-10 integer that fits in 64 bits, and each becomes that integer. */
  lemma CastInt64Spec(x: Externals, adp: CastToDatatypeAdapter, row: Row)
    requires adp.dataType == "int64"
    ensures CastRow(x, adp, row).Ok? <==> forall k :: Casts(adp, row, k) ==> ParseInt64(Show(row[k])).Some?
    ensures CastRow(x, adp, row).Ok? ==>
            forall k :: Casts(adp, row, k) ==> CastRow(x, adp, row).value[k] == Int(ParseInt64(Show(row[k])).value)
    ensures CastRow(x, adp, row).Ok? ==> forall k :: k in row && !Casts(adp, row, k) ==> CastRow(x, adp, row).value[k] == row[k]
  {
    CastSettled(x, adp);
    UpdateFieldsSettled(CastUpdate(x, adp), SkipNull, adp.fields, row);
  }

  /** A field that already holds a 64-bit integer keeps it under `"int64"`. */
  lemma CastInt64KeepsIntegers(x: Externals, adp: CastToDatatypeAdapter, row: Row, k: string)
    requires adp.dataType == "int64" && CastRow(x, adp, row).Ok?
    requires k in row && row[k].Int? && Int64Min <= row[k].i <= Int64Max
    ensures CastRow(x, adp, row).value[k] == row[k]
  {
    CastInt64Spec(x, adp, row);
    ParseSignedDecimal(row[k].i);
  }

  /** `"datetime"` never aborts and only touches listed non-nil fields; with
      every field listed once, each becomes the reformatted time string. */
  lemma CastDatetimeSpec(x: Externals, adp: CastToDatatypeAdapter, row: Row)
    requires adp.dataType == "datetime"
    ensures CastRow(x, adp, row).Ok?
    ensures forall k :: k in row && !Casts(adp, row, k) ==> CastRow(x, adp, row).value[k] == row[k]
    ensures Distinct(adp.fields) ==>
            forall k :: Casts(adp, row, k) ==>
              CastRow(x, adp, row).value[k] == Str(x.formatDatetime(adp.inLayout, adp.outLayout, Show(row[k])))
  {
    UpdateFieldsTotal(CastUpdate(x, adp), SkipNull, adp.fields, row);
    UpdateFieldsKeepsSkipped(CastUpdate(x, adp), SkipNull, adp.fields, row);
    if Distinct(adp.fields) {
      UpdateFieldsDistinct(CastUpdate(x, adp), SkipNull, adp.fields, row);
    }
  }

  /** An unknown datatype aborts exactly the rows with a listed field
      present and non-nil, and passes every other row unchanged. */
  lemma CastUnknownSpec(x: Externals, adp: CastToDatatypeAdapter, row: Row)
    requires adp.dataType !in {"boolean", "int64", "float64", "datetime"}
    ensures CastRow(x, adp, row).Err? <==> exists k :: Casts(adp, row, k)
    ensures CastRow(x, adp, row).Ok? ==> CastRow(x, adp, row).value == row
  {
    CastSettled(x, adp);
    UpdateFieldsSettled(CastUpdate(x, adp), SkipNull, adp.fields, row);
    if exists k :: Casts(adp, row, k) {
      var k :| Casts(adp, row, k);
      assert Step(CastUpdate(x, adp), SkipNull, row[k]).None?;
    } else {
      forall k | k in row && k in adp.fields ensures Step(CastUpdate(x, adp), SkipNull, row[k]) == Some(Null) {
        assert !Casts(adp, row, k);
      }
    }
    if CastRow(x, adp, row).Ok? {
      var r := CastRow(x, adp, row).value;
      assert forall k :: k in row ==> r[k] == row[k];
      assert r == row;
    }
  }

  /** Boolean and int64 casts are idempotent. */
  lemma CastRowIdempotent(x: Externals, adp: CastToDatatypeAdapter, row: Row)
    requires adp.dataType in {"boolean", "int64"} && CastRow(x, adp, row).Ok?
    ensures CastRow(x, adp, CastRow(x, adp, row).value) == CastRow(x, adp, row)
  {
    CastSettled(x, adp);
    UpdateFieldsIdempotent(CastUpdate(x, adp), SkipNull, adp.fields, row);
  }
}
