/** targets/builder.go: target dispatch by `Type` tag. */
module TargetBuilder {
  import opened Results
  import opened Config

  /** The JSON-lines file target: the wait-group handle it was given, its
      task and the file it writes. */
  datatype Target = JSONLinesTarget(wg: int, task: string, fileName: string)

  const JSONLinesTag := "jsonl-file"

  /** `BuildTarget`: only the `"jsonl-file"` tag builds a target; every
      other tag aborts, including the `"jsonl-file-target"` and
      `"http-request-target"` spellings the target files declare. */
  function BuildTarget(wg: int, task: string, tgcfg: TargetConfig): (r: Result<Target>)
    ensures r.Ok? <==> tgcfg.tag == JSONLinesTag
    ensures tgcfg.tag in {"jsonl-file-target", "http-request-target"} ==> r.Err?
    ensures r.Ok? ==> r.value.wg == wg && r.value.task == task && r.value.fileName == tgcfg.output
  {
    if tgcfg.tag == JSONLinesTag then Ok(JSONLinesTarget(wg, task, tgcfg.output))
    else Err("Invalid target type: " + tgcfg.tag)
  }
}
