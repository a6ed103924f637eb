/** sources/builder.go and the two constructors it calls
    (sources/database.go, sources/jsonl.go). */
module SourceBuilder {
  import opened Results
  import opened Values
  import opened Config

  /** The two source kinds with what their constructors store. The
      database source's connection URI is not part of this model; its
      driver and the configuration it is built from are. */
  datatype Source =
    | DatabaseQuerySource(task: string, database: string, driver: string, query: string)
    | JSONLFileSource(task: string, fileName: string)

  const DatabaseQueryTag := "database-query-source"
  const JSONLFileTag := "jsonl-file-source"

  /** The source arguments as the constructors read them: the constructors
      drop `GetSourceConfig`'s error, so a missing task reads as an empty
      argument map. */
  function SourceArguments(cfg: Config, taskName: string): Arguments
  {
    if taskName in cfg.tasks then cfg.tasks[taskName].source.arguments else map[]
  }

  function DatabaseConfigError(dbName: string, taskName: string, cause: string): string
  {
    "Can't get configuration of database '" + dbName + "' for task '" + taskName + "': " + cause
  }

  /** `NewDatabaseQuerySource`: `"database"` must be a string naming a
      configured database, and `"query"` must be a string. */
  function NewDatabaseQuerySource(cfg: Config, taskName: string): (r: Result<Source>)
    ensures var args := SourceArguments(cfg, taskName);
            r.Ok? <==> ArgAsString(args, "database").Ok? &&
                       ArgAsString(args, "database").value in cfg.databases &&
                       ArgAsString(args, "query").Ok?
    ensures var args := SourceArguments(cfg, taskName);
            r.Ok? ==> r.value.DatabaseQuerySource? && r.value.task == taskName &&
                      r.value.database == args["database"].value.s &&
                      r.value.driver == cfg.databases[r.value.database].driver &&
                      r.value.query == args["query"].value.s
    ensures var args := SourceArguments(cfg, taskName);
            ArgAsString(args, "database").Ok? && ArgAsString(args, "database").value !in cfg.databases ==>
              var dbName := ArgAsString(args, "database").value;
              r == Err(DatabaseConfigError(dbName, taskName, "Missing configuration for database: " + dbName))
  {
    var args := SourceArguments(cfg, taskName);
    match ArgAsString(args, "database")
    case Err(m) => Err(m)
    case Ok(dbName) =>
      match GetDatabaseConfig(cfg, dbName)
      case Err(m) => Err(DatabaseConfigError(dbName, taskName, m))
      case Ok(db) =>
        match ArgAsString(args, "query")
        case Err(m) => Err(m)
        case Ok(query) => Ok(DatabaseQuerySource(taskName, dbName, db.driver, query))
  }

  /** `NewJSONLFileSource`: `"filename"` must be a string. */
  function NewJSONLFileSource(cfg: Config, taskName: string): (r: Result<Source>)
    ensures r.Ok? <==> ArgAsString(SourceArguments(cfg, taskName), "filename").Ok?
    ensures r.Ok? ==> r.value.JSONLFileSource? && r.value.task == taskName &&
                      r.value.fileName == SourceArguments(cfg, taskName)["filename"].value.s
  {
    match ArgAsString(SourceArguments(cfg, taskName), "filename")
    case Err(m) => Err(m)
    case Ok(fileName) => Ok(JSONLFileSource(taskName, fileName))
  }

  /** `BuildSource`: aborts when the task has no configuration, builds the
      source its tag names, and aborts on any other tag. The `id` is not
      passed on: neither source constructor takes one. */
  function BuildSource(id: int, cfg: Config, taskName: string): (r: Result<Source>)
    ensures GetSourceConfig(cfg, taskName).Err? ==>
              r == Err("Error getting source configuration for task " + taskName + ": " + GetSourceConfig(cfg, taskName).msg)
    ensures taskName in cfg.tasks && cfg.tasks[taskName].source.tag !in {DatabaseQueryTag, JSONLFileTag} ==>
              r == Err("Invalid source endpoint type " + cfg.tasks[taskName].source.tag)
    ensures r.Ok? ==> taskName in cfg.tasks && r.value.task == taskName
    ensures r.Ok? ==> (r.value.DatabaseQuerySource? <==> cfg.tasks[taskName].source.tag == DatabaseQueryTag)
    ensures r.Ok? ==> (r.value.JSONLFileSource? <==> cfg.tasks[taskName].source.tag == JSONLFileTag)
  {
    match GetSourceConfig(cfg, taskName)
    case Err(m) => Err("Error getting source configuration for task " + taskName + ": " + m)
    case Ok(sc) =>
      if sc.tag == DatabaseQueryTag then NewDatabaseQuerySource(cfg, taskName)
      else if sc.tag == JSONLFileTag then NewJSONLFileSource(cfg, taskName)
      else Err("Invalid source endpoint type " + sc.tag)
  }

  /** When a task's source builds, in terms of its configuration alone: the
      task exists and either it is a database query whose `"database"` is a
      string naming a configured database and whose `"query"` is a string,
      or it is a JSON-lines file whose `"filename"` is a string. */
  lemma BuildSourceOk(id: int, cfg: Config, taskName: string)
    ensures BuildSource(id, cfg, taskName).Ok? <==>
            taskName in cfg.tasks &&
            var sc := cfg.tasks[taskName].source;
            (sc.tag == DatabaseQueryTag && "database" in sc.arguments && sc.arguments["database"].Scalar? &&
             sc.arguments["database"].value.Str? && sc.arguments["database"].value.s in cfg.databases &&
             "query" in sc.arguments && sc.arguments["query"].Scalar? && sc.arguments["query"].value.Str?) ||
            (sc.tag == JSONLFileTag && "filename" in sc.arguments && sc.arguments["filename"].Scalar? &&
             sc.arguments["filename"].value.Str?)
  {
  }
}
