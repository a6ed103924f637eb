/** adapters/mapping.go: the constant-mapping adapter. */
module MappingAdapter {
  import opened Results
  import opened Values
  import opened Rows
  import opened Streams
  import opened Config
  import opened Library

  datatype ConstantMappingAdapter = ConstantMappingAdapter(
    id: int, task: string, adapter: string, fields: seq<string>,
    mapData: map<string, string>, otherwise: string)

  /** `NewConstantMappingAdapter`: reads the `fields` list, loads the map
      named `mapname` from the file `filename` (resolved against the
      configuration file's directory), and reads the `otherwise` value. */
  function NewConstantMappingAdapter(x: Externals, id: int, cfg: Config, taskName: string, adapterName: string): (r: Result<ConstantMappingAdapter>)
    ensures r.Ok? <==> GetAdapterConfig(cfg, taskName, adapterName).Ok? &&
                       var args := GetAdapterConfig(cfg, taskName, adapterName).value.arguments;
                       ArgFields(args).Ok? &&
                       x.loadMapData(cfg.configFilename, ArgString(args, "filename"), ArgString(args, "mapname")).Some?
    ensures r.Ok? ==> var args := cfg.tasks[taskName].adapters[adapterName].arguments;
                      r.value.id == id && r.value.task == taskName && r.value.adapter == adapterName &&
                      Ok(r.value.fields) == ArgFields(args) &&
                      Some(r.value.mapData) == x.loadMapData(cfg.configFilename, ArgString(args, "filename"), ArgString(args, "mapname")) &&
                      r.value.otherwise == ArgString(args, "otherwise")
  {
    match GetAdapterConfig(cfg, taskName, adapterName)
    case Err(m) => Err(m)
    case Ok(ac) =>
      match ArgFields(ac.arguments)
      case Err(m) => Err(m)
      case Ok(fields) =>
        var relative := ArgString(ac.arguments, "filename");
        var mapName := ArgString(ac.arguments, "mapname");
        match x.loadMapData(cfg.configFilename, relative, mapName)
        case None => Err("Error reading mapping file '" + relative + "'")
        case Some(mapData) =>
          Ok(ConstantMappingAdapter(id, taskName, adapterName, fields, mapData, ArgString(ac.arguments, "otherwise")))
  }

  /** The constant a printed value maps to. */
  function Lookup(mapData: map<string, string>, otherwise: string, value: string): (r: string)
    ensures value in mapData ==> r == mapData[value]
    ensures value !in mapData ==> r == otherwise
  {
    if value in mapData then mapData[value] else otherwise
  }

  function MapUpdate(mapData: map<string, string>, otherwise: string): Value -> Option<Value>
  {
    v => Some(Str(Lookup(mapData, otherwise, Show(v))))
  }

  /** The body of `Run`'s row loop, as a function of the row. */
  function MapRow(adp: ConstantMappingAdapter, row: Row): (r: Result<Row>)
    ensures r.Ok? ==> r.value.Keys == row.Keys
    ensures r.Ok? ==> forall k :: k in row && k !in adp.fields ==> r.value[k] == row[k]
  {
    UpdateFields(MapUpdate(adp.mapData, adp.otherwise), SkipNull, adp.fields, row)
  }

  function RowFn(adp: ConstantMappingAdapter): Row -> Result<Row>
  {
    row => MapRow(adp, row)
  }

  method ProcessRow(adp: ConstantMappingAdapter, row0: Row) returns (r: Result<Row>)
    ensures r == MapRow(adp, row0)
  {
    var row := row0;
    for i := 0 to |adp.fields|
      invariant MapRow(adp, row0) == UpdateFields(MapUpdate(adp.mapData, adp.otherwise), SkipNull, adp.fields[i..], row)
    {
      var field := adp.fields[i];
      assert adp.fields[i..] == [field] + adp.fields[i + 1..];
      if field !in row || row[field] == Null {
        continue;
      }
      var value := Show(row[field]);
      if value in adp.mapData {
        row := row[field := Str(adp.mapData[value])];
      } else {
        row := row[field := Str(adp.otherwise)];
      }
    }
    return Ok(row);
  }

  method Run(adp: ConstantMappingAdapter, input: Stream) returns (out: Stream)
    ensures out == Pass(RowFn(adp), input)
  {
    var sent: seq<Row> := [];
    for i := 0 to |input.rows|
      invariant Apply(RowFn(adp), input.rows[..i]) == Progress(sent, false)
    {
      var r := ProcessRow(adp, input.rows[i]);
      if r.Err? {
        ApplyStopsAt(RowFn(adp), input.rows, i, sent);
        return Stream(sent, false);
      }
      ApplyExtend(RowFn(adp), input.rows, i, sent, r.value);
      sent := sent + [r.value];
    }
    assert input.rows[..|input.rows|] == input.rows;
    return Stream(sent, input.closed);
  }

  /** The values a mapped field can end up with. */
  predicate InRange(adp: ConstantMappingAdapter, v: Value)
  {
    v.Str? && (v.s in adp.mapData.Values || v.s == adp.otherwise)
  }

  lemma {:induction false} IterateInRange(adp: ConstantMappingAdapter, n: nat, v: Value)
    requires n >= 1 && v != Null
    ensures Iterate(MapUpdate(adp.mapData, adp.otherwise), SkipNull, n, v).Some?
    ensures InRange(adp, Iterate(MapUpdate(adp.mapData, adp.otherwise), SkipNull, n, v).value)
    decreases n
  {
    var w := Str(Lookup(adp.mapData, adp.otherwise, Show(v)));
    assert Step(MapUpdate(adp.mapData, adp.otherwise), SkipNull, v) == Some(w);
    if n > 1 {
      IterateInRange(adp, n - 1, w);
    } else {
      assert Iterate(MapUpdate(adp.mapData, adp.otherwise), SkipNull, 1, v) == Some(w);
    }
  }

  /** The mapping never aborts a row; it keeps the key set, leaves nil and
      unlisted fields alone, and leaves every listed non-nil field holding
      one of the map's constants or the `otherwise` value. */
  lemma MapRowSpec(adp: ConstantMappingAdapter, row: Row)
    ensures MapRow(adp, row).Ok?
    ensures MapRow(adp, row).value.Keys == row.Keys
    ensures forall k :: k in row && (k !in adp.fields || row[k] == Null) ==> MapRow(adp, row).value[k] == row[k]
    ensures forall k :: k in row && k in adp.fields && row[k] != Null ==> InRange(adp, MapRow(adp, row).value[k])
  {
    var update := MapUpdate(adp.mapData, adp.otherwise);
    UpdateFieldsTotal(update, SkipNull, adp.fields, row);
    UpdateFieldsKeepsSkipped(update, SkipNull, adp.fields, row);
    UpdateFieldsPerKey(update, SkipNull, adp.fields, row);
    forall k | k in row && k in adp.fields && row[k] != Null ensures InRange(adp, MapRow(adp, row).value[k]) {
      CountPositive(adp.fields, k);
      IterateInRange(adp, Count(adp.fields, k), row[k]);
    }
  }

  /** With every field listed once, each listed non-nil field is replaced by
      the constant its printed value maps to, or by `otherwise`. */
  lemma MapRowDistinct(adp: ConstantMappingAdapter, row: Row)
    requires Distinct(adp.fields)
    ensures MapRow(adp, row).Ok?
    ensures forall k :: k in row && k in adp.fields && row[k] != Null ==>
              MapRow(adp, row).value[k] == Str(Lookup(adp.mapData, adp.otherwise, Show(row[k])))
  {
    var update := MapUpdate(adp.mapData, adp.otherwise);
    UpdateFieldsTotal(update, SkipNull, adp.fields, row);
    UpdateFieldsDistinct(update, SkipNull, adp.fields, row);
  }
}
