/** The `MedicalAIAgent` object and the collaborators it talks to.
    The generative model, the search client and the SQLite/pandas layer are not modelled:
    each is a function from its request to a value or to the text of the exception it raised,
    and every request the agent makes is logged as a `Call`, so that which collaborators are
    invoked, and in what order, is part of every result. */
module Agent {
  import opened Wrappers

  /** One row of `PRAGMA table_info`: the column's name (`col[1]`) and declared type (`col[2]`). */
  datatype Column = Column(name: string, declaredType: string)

  datatype Table = Table(name: string, columns: seq<Column>)

  /** One entry of the `results` list of a search response. */
  datatype Hit = Hit(title: string, url: string, content: string)

  /** The DataFrame `pd.read_sql_query` returns. Only its `to_string()` rendering is used,
      and that rendering is supplied by the `Sqlite` collaborator. */
  datatype Frame = Frame(columns: seq<string>, rows: seq<seq<string>>)

  /** What each prompt sent to the model embeds; the fixed instructions around it are not modelled. */
  datatype Prompt =
    | SqlPrompt(schema: string, question: string)
    | InterpretPrompt(question: string, sql: string, results: string)
    | SynthesisPrompt(question: string, searchResults: string)

  /** A request made to a collaborator. */
  datatype Call =
    | Generate(prompt: Prompt)                // model.generate_content(prompt)
    | Search(query: string, maxResults: nat)  // tavily_client.search(query, max_results=...)
    | InspectSchema(path: string)             // sqlite3.connect(path) for get_table_schema
    | RunQuery(path: string, sql: string)     // sqlite3.connect(path) + pd.read_sql_query(sql, conn)

  /** A value together with the requests made, in order, while computing it. */
  datatype Traced<T> = Traced(value: T, calls: seq<Call>)

  /** `model.generate_content(prompt).text`, or the text of the exception raised. */
  type Model = Prompt -> Result<string, string>

  /** `client.search(query, max_results=n)["results"]`, or the text of the exception raised. */
  type SearchClient = (string, nat) -> Result<seq<Hit>, string>

  /** The database files as sqlite3 and pandas see them, each function taking the file's path first. */
  datatype Sqlite = Sqlite(
    tableNames: string -> Result<seq<string>, string>,           // SELECT name FROM sqlite_master WHERE type='table'
    tableInfo: (string, string) -> Result<seq<Column>, string>,  // PRAGMA table_info(<table>)
    readSql: (string, string) -> Result<Frame, string>,          // pd.read_sql_query(<query>, conn)
    frameText: Frame -> string)                                  // DataFrame.to_string()

  /** The fields `__init__` sets; nothing changes them afterwards. */
  datatype MedicalAgent = MedicalAgent(
    model: Model,
    tavilyClient: Option<SearchClient>,
    dbPaths: map<string, string>)

  const DbPaths: map<string, string> := map[
    "heart" := "databases/heart_disease.db",
    "cancer" := "databases/cancer.db",
    "diabetes" := "databases/diabetes.db"]

  /** `MedicalAIAgent(gemini_api_key, tavily_api_key)`: the search client exists only for a
      truthy key (neither None nor the empty string); the three database paths are fixed. */
  function NewAgent(model: Model, tavilyApiKey: Option<string>, connect: string -> SearchClient): (agent: MedicalAgent)
    ensures agent.tavilyClient.Some? <==> tavilyApiKey.Some? && tavilyApiKey.value != ""
    ensures agent.tavilyClient.Some? ==> agent.tavilyClient.value == connect(tavilyApiKey.value)
    ensures agent.model == model
    ensures agent.dbPaths.Keys == {"heart", "cancer", "diabetes"}
    ensures agent.dbPaths == DbPaths
  {
    var client := if tavilyApiKey.Some? && tavilyApiKey.value != "" then Some(connect(tavilyApiKey.value)) else None;
    MedicalAgent(model, client, DbPaths)
  }

  /** `str(KeyError(key))` for a missing dictionary key: the key between single quotes. */
  function KeyErrorText(key: string): string {
    "'" + key + "'"
  }
}
