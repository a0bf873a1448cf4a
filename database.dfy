/** `query_database` (medical_agent.py, lines 23-31): run a query against one of the agent's
    database files and hand back the DataFrame, or the failure as text. */
module Database {
  import opened Wrappers
  import opened Text
  import opened Agent

  const QueryErrorPrefix := "Error querying database: "

  /** What `query_database` returns: a DataFrame, or a string carrying the failure. */
  datatype QueryResult = Rows(frame: Frame) | Failed(message: string)

  /** What `query_database(db_name, query)` returns, and the query it runs. An unknown key fails
      before anything is opened; otherwise the query runs once against the key's file, and the
      rows come back exactly when reading them succeeds. Failures are never raised: they come
      back as text that starts with the prefix. */
  function QueryDatabase(agent: MedicalAgent, db: Sqlite, dbName: string, query: string): (r: Traced<QueryResult>)
    ensures r.value.Failed? ==> StartsWith(r.value.message, QueryErrorPrefix)
    ensures dbName !in agent.dbPaths ==> r == Traced(Failed(QueryErrorPrefix + KeyErrorText(dbName)), [])
    ensures dbName in agent.dbPaths ==>
      && r.calls == [RunQuery(agent.dbPaths[dbName], query)]
      && (r.value.Rows? <==> db.readSql(agent.dbPaths[dbName], query).Success?)
      && (r.value.Rows? ==> db.readSql(agent.dbPaths[dbName], query) == Success(r.value.frame))
      && (r.value.Failed? ==> r.value.message == QueryErrorPrefix + db.readSql(agent.dbPaths[dbName], query).error)
  {
    if dbName !in agent.dbPaths then Traced(Failed(QueryErrorPrefix + KeyErrorText(dbName)), [])
    else
      var path := agent.dbPaths[dbName];
      var rows := match db.readSql(path, query)
        case Success(frame) => Rows(frame)
        case Failure(e) => Failed(QueryErrorPrefix + e);
      Traced(rows, [RunQuery(path, query)])
  }
}
