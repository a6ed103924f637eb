/** The record model of core/types.go: a `RowMap` is a `map[string]any`
    whose values are the scalars a source produces, and the open argument
    maps of the stage configurations. */
module Values {
  import opened Results
  import opened Text

  type byte = b: int | 0 <= b < 256

  /** A dynamically typed field value. `Other` stands for any other Go value
      (a float, a time, a nested structure), carried with its printed form. */
  datatype Value = Null | Str(s: string) | Bool(b: bool) | Int(i: int) | Other(printed: string)

  /** `core.RowMap`: one record, field name to value. */
  type Row = map<string, Value>

  /** `fmt.Sprint` of a single value. */
  function Show(v: Value): string
  {
    match v
    case Null => "<nil>"
    case Str(s) => s
    case Bool(b) => if b then "true" else "false"
    case Int(i) => SignedDecimal(i)
    case Other(p) => p
  }

  /** One entry of a stage's `Arguments` map: a scalar or a list, as the
      configuration file yields them. */
  datatype Arg = Scalar(value: Value) | List(items: seq<Value>)

  type Arguments = map<string, Arg>

  /** `fmt.Sprint` of the items of a list, separated by single spaces. */
  function ShowItems(items: seq<Value>): string
    decreases |items|
  {
    if items == [] then ""
    else if |items| == 1 then Show(items[0])
    else Show(items[0]) + " " + ShowItems(items[1..])
  }

  function ShowArg(a: Arg): string
  {
    match a
    case Scalar(v) => Show(v)
    case List(items) => "[" + ShowItems(items) + "]"
  }

  /** `fmt.Sprint(args[key])`: a missing key reads as Go's nil. */
  function ArgString(args: Arguments, key: string): (r: string)
    ensures key !in args ==> r == "<nil>"
    ensures key in args && args[key].Scalar? ==> r == Show(args[key].value)
  {
    if key in args then ShowArg(args[key]) else "<nil>"
  }

  /** `args["fields"].([]any)` followed by `fmt.Sprint` of every item; the
      type assertion panics, which aborts the task, unless the entry is a list. */
  function ArgFields(args: Arguments): (r: Result<seq<string>>)
    ensures r.Ok? <==> "fields" in args && args["fields"].List?
    ensures r.Ok? ==> |r.value| == |args["fields"].items|
    ensures r.Ok? ==> forall i :: 0 <= i < |r.value| ==> r.value[i] == Show(args["fields"].items[i])
  {
    if "fields" in args && args["fields"].List? then
      var items := args["fields"].items;
      Ok(seq(|items|, i requires 0 <= i < |items| => Show(items[i])))
    else Err("interface conversion: fields is not []any")
  }

  /** `args[key].(string)`: panics (the task aborts) unless the entry is a string. */
  function ArgAsString(args: Arguments, key: string): (r: Result<string>)
    ensures r.Ok? <==> key in args && args[key].Scalar? && args[key].value.Str?
    ensures r.Ok? ==> r.value == args[key].value.s
  {
    if key in args && args[key].Scalar? && args[key].value.Str? then Ok(args[key].value.s)
    else Err("interface conversion: " + key + " is not string")
  }
}
