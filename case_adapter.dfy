/** adapters/case.go: the case-conversion adapter. */
module CaseAdapter {
  import opened Results
  import opened Text
  import opened Values
  import opened Rows
  import opened Streams
  import opened Config

  datatype CaseConversionAdapter = CaseConversionAdapter(
    id: int, task: string, adapter: string, fields: seq<string>, handling: string)

  /** `NewCaseConversionAdapter`: reads the adapter's `fields` list and its
      `handling`. A missing adapter entry (a nil dereference) or a `fields`
      entry that is not a list (a failed type assertion) aborts. */
  function NewCaseConversionAdapter(id: int, cfg: Config, taskName: string, adapterName: string): (r: Result<CaseConversionAdapter>)
    ensures r.Ok? <==> GetAdapterConfig(cfg, taskName, adapterName).Ok? &&
                       ArgFields(GetAdapterConfig(cfg, taskName, adapterName).value.arguments).Ok?
    ensures r.Ok? ==> var args := cfg.tasks[taskName].adapters[adapterName].arguments;
                      r.value.id == id && r.value.task == taskName && r.value.adapter == adapterName &&
                      |r.value.fields| == |args["fields"].items| &&
                      (forall i :: 0 <= i < |r.value.fields| ==> r.value.fields[i] == Show(args["fields"].items[i])) &&
                      r.value.handling == ArgString(args, "handling")
  {
    match GetAdapterConfig(cfg, taskName, adapterName)
    case Err(m) => Err(m)
    case Ok(ac) =>
      match ArgFields(ac.arguments)
      case Err(m) => Err(m)
      case Ok(fields) => Ok(CaseConversionAdapter(id, taskName, adapterName, fields, ArgString(ac.arguments, "handling")))
  }

  /** `titleCase`: the lowered string with its first character raised. The
      empty string has no first character, and indexing it panics. */
  function TitleCase(s: string): (r: Option<string>)
    ensures r.None? <==> s == []
    ensures r.Some? ==> |r.value| == |s| && r.value[0] == UpperChar(s[0]) && r.value[1..] == ToLower(s[1..])
  {
    if s == [] then None
    else
      var lowered := ToLower(s);
      LowerUpperChar(s[0]);
      assert lowered[1..] == ToLower(s[1..]);
      Some([UpperChar(lowered[0])] + lowered[1..])
  }

  /** A title-cased string is its own title case. */
  lemma TitleCaseIdempotent(s: string)
    requires s != []
    ensures TitleCase(TitleCase(s).value) == TitleCase(s)
  {
    var t := TitleCase(s).value;
    LowerUpperChar(s[0]);
    LowerUpperChar(UpperChar(s[0]));
    CaseIdempotent(s[1..]);
    assert t[1..] == ToLower(s[1..]);
    var u := TitleCase(t).value;
    assert u[0] == t[0];
    assert u[1..] == t[1..];
    assert u == [u[0]] + u[1..] && t == [t[0]] + t[1..];
  }

  /** The conversion one `handling` applies to a field's printed value;
      `None` is a fatal error (an unknown handling, or `titleCase` of an
      empty value). */
  function Convert(handling: string, value: string): Option<string>
  {
    if handling == "upper" then Some(ToUpper(value))
    else if handling == "lower" then Some(ToLower(value))
    else if handling == "title" then TitleCase(value)
    else None
  }

  function CaseUpdate(handling: string): Value -> Option<Value>
  {
    v => match Convert(handling, Show(v))
      case None => None
      case Some(s) => Some(Str(s))
  }

  /** The body of `Run`'s row loop, as a function of the row. */
  function ConvertRow(adp: CaseConversionAdapter, row: Row): (r: Result<Row>)
    ensures r.Ok? ==> r.value.Keys == row.Keys
    ensures r.Ok? ==> forall k :: k in row && k !in adp.fields ==> r.value[k] == row[k]
  {
    UpdateFields(CaseUpdate(adp.handling), SkipNull, adp.fields, row)
  }

  function RowFn(adp: CaseConversionAdapter): Row -> Result<Row>
  {
    row => ConvertRow(adp, row)
  }

  /** One row through the field loop of `Run`, updating the row in place. */
  method ProcessRow(adp: CaseConversionAdapter, row0: Row) returns (r: Result<Row>)
    ensures r == ConvertRow(adp, row0)
  {
    var row := row0;
    for i := 0 to |adp.fields|
      invariant ConvertRow(adp, row0) == UpdateFields(CaseUpdate(adp.handling), SkipNull, adp.fields[i..], row)
    {
      var field := adp.fields[i];
      assert adp.fields[i..] == [field] + adp.fields[i + 1..];
      if field !in row || row[field] == Null {
        continue;
      }
      var value := Show(row[field]);
      if adp.handling == "upper" {
        row := row[field := Str(ToUpper(value))];
      } else if adp.handling == "lower" {
        row := row[field := Str(ToLower(value))];
      } else if adp.handling == "title" {
        var title := TitleCase(value);
        if title.None? {
          return Err("cannot convert field " + field);
        }
        row := row[field := Str(title.value)];
      } else {
        return Err("cannot convert field " + field);
      }
    }
    return Ok(row);
  }

  /** `Run`: every input row through the field loop, sent on in order; a
      fatal error ends the stage without closing its output. */
  method Run(adp: CaseConversionAdapter, input: Stream) returns (out: Stream)
    ensures out == Pass(RowFn(adp), input)
  {
    var sent: seq<Row> := [];
    for i := 0 to |input.rows|
      invariant Apply(RowFn(adp), input.rows[..i]) == Progress(sent, false)
    {
      var r := ProcessRow(adp, input.rows[i]);
      if r.Err? {
        ApplyStopsAt(RowFn(adp), input.rows, i, sent);
        return Stream(sent, false);
      }
      ApplyExtend(RowFn(adp), input.rows, i, sent, r.value);
      sent := sent + [r.value];
    }
    assert input.rows[..|input.rows|] == input.rows;
    return Stream(sent, input.closed);
  }

  /** A converted value is left alone by a second conversion. */
  lemma CaseSettled(handling: string)
    ensures Settled(CaseUpdate(handling), SkipNull)
  {
    forall v, w | Step(CaseUpdate(handling), SkipNull, v) == Some(w)
      ensures Step(CaseUpdate(handling), SkipNull, w) == Some(w)
    {
      if v != Null {
        var s := Show(v);
        if handling == "upper" || handling == "lower" {
          CaseIdempotent(s);
        } else if handling == "title" {
          TitleCaseIdempotent(s);
        }
      }
    }
  }

  /** Which listed fields a row presents to the conversion. */
  predicate Converts(adp: CaseConversionAdapter, row: Row, k: string)
  {
    k in row && k in adp.fields && row[k] != Null
  }

  /** The row loop as a pointwise map: a listed, present, non-nil field
      becomes the upper, lower or title case of its printed value; every
      other field keeps its value and no key is added or removed. The row
      aborts exactly when the handling is unknown and some field is
      converted, or the handling is `"title"` and some converted field
      prints as the empty string. */
  lemma ConvertRowSpec(adp: CaseConversionAdapter, row: Row)
    ensures ConvertRow(adp, row).Ok? <==>
            if adp.handling in {"upper", "lower"} then true
            else if adp.handling == "title" then forall k :: Converts(adp, row, k) ==> Show(row[k]) != []
            else forall k :: !Converts(adp, row, k)
    ensures ConvertRow(adp, row).Ok? ==> ConvertRow(adp, row).value.Keys == row.Keys
    ensures ConvertRow(adp, row).Ok? ==> forall k :: k in row && !Converts(adp, row, k) ==> ConvertRow(adp, row).value[k] == row[k]
    ensures ConvertRow(adp, row).Ok? && adp.handling == "upper" ==>
            forall k :: Converts(adp, row, k) ==> ConvertRow(adp, row).value[k] == Str(ToUpper(Show(row[k])))
    ensures ConvertRow(adp, row).Ok? && adp.handling == "lower" ==>
            forall k :: Converts(adp, row, k) ==> ConvertRow(adp, row).value[k] == Str(ToLower(Show(row[k])))
    ensures ConvertRow(adp, row).Ok? && adp.handling == "title" ==>
            forall k :: Converts(adp, row, k) ==> ConvertRow(adp, row).value[k] == Str(TitleCase(Show(row[k])).value)
  {
    CaseSettled(adp.handling);
    UpdateFieldsSettled(CaseUpdate(adp.handling), SkipNull, adp.fields, row);
    forall k | Converts(adp, row, k)
      ensures Step(CaseUpdate(adp.handling), SkipNull, row[k]).Some? <==>
              adp.handling in {"upper", "lower"} || (adp.handling == "title" && Show(row[k]) != [])
    {
    }
  }

  /** Converting a converted row changes nothing. */
  lemma ConvertRowIdempotent(adp: CaseConversionAdapter, row: Row)
    requires ConvertRow(adp, row).Ok?
    ensures ConvertRow(adp, ConvertRow(adp, row).value) == ConvertRow(adp, row)
  {
    CaseSettled(adp.handling);
    UpdateFieldsIdempotent(CaseUpdate(adp.handling), SkipNull, adp.fields, row);
  }
}
