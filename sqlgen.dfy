/** `generate_sql_query` (medical_agent.py, lines 67-93): the schema goes into a prompt, the
    model answers, and the Markdown fence the model may wrap its answer in is stripped. */
module SqlGen {
  import opened Wrappers
  import opened Text
  import opened Agent
  import opened Schema

  const SqlFence := "```sql"
  const Fence := "```"
  const SqlErrorPrefix := "Error generating SQL query: "

  /** The query read out of the model's answer: the answer stripped of edge whitespace, then of
      one leading "```sql" if present, then of one trailing "```" if present, then stripped again. */
  function StripFences(response: string): (sql: string)
    ensures Trimmed(sql)
    ensures |sql| <= |response|
  {
    var t := Trim(response);
    var a := if StartsWith(t, SqlFence) then t[|SqlFence|..] else t;
    var b := if EndsWith(a, Fence) then a[..|a| - |Fence|] else a;
    Trim(b)
  }

  /** An answer with neither fence comes back merely trimmed. */
  lemma StripFencesOfUnfenced(response: string)
    requires !StartsWith(Trim(response), SqlFence) && !EndsWith(Trim(response), Fence)
    ensures StripFences(response) == Trim(response)
  {
    TrimIdempotent(response);
  }

  /** Once the answer is stripped, a leading "```sql" and a trailing "```" are both removed. */
  lemma StripFencesOfTrimmedFenced(t: string, query: string)
    requires Trim(t) == SqlFence + (query + Fence)
    ensures StripFences(t) == Trim(query)
  {
    StartsWithConcat(SqlFence, query + Fence);
    EndsWithConcat(query, Fence);
  }

  /** Each mark is removed on its own: a stripped answer that opens with "```sql" but does not
      end with "```" loses only the opening, and any text after a closing fence stays. */
  lemma StripFencesOfOpeningOnly(t: string, rest: string)
    requires Trim(t) == SqlFence + rest && !EndsWith(rest, Fence)
    ensures StripFences(t) == Trim(rest)
  {
    StartsWithConcat(SqlFence, rest);
  }

  /** A stripped answer that ends with "```" but does not open with "```sql" loses only the
      closing mark. */
  lemma StripFencesOfClosingOnly(t: string, rest: string)
    requires Trim(t) == rest + Fence && !StartsWith(rest + Fence, SqlFence)
    ensures StripFences(t) == Trim(rest)
  {
    EndsWithConcat(rest, Fence);
  }

  /** A query wrapped in a "```sql" ... "```" fence, with any whitespace around the fence, comes
      back as the query with its own edge whitespace stripped. */
  lemma StripFencesOfFenced(before: string, query: string, after: string)
    requires AllSpace(before) && AllSpace(after)
    ensures StripFences(before + SqlFence + query + Fence + after) == Trim(query)
  {
    var fenced := SqlFence + query + Fence;
    assert fenced[0] == '`' && fenced[|fenced| - 1] == '`';
    assert Trimmed(fenced);
    assert before + SqlFence + query + Fence + after == before + fenced + after;
    assert fenced == SqlFence + (query + Fence);
    TrimAround(before, fenced, after);
    StripFencesOfTrimmedFenced(before + SqlFence + query + Fence + after, query);
  }

  /** A query with no edge whitespace and no fence marks at its ends survives a round trip
      through a fenced answer, and through an unfenced one. */
  lemma StripFencesRoundTrip(query: string, before: string, after: string)
    requires Trimmed(query) && !StartsWith(query, SqlFence) && !EndsWith(query, Fence)
    requires AllSpace(before) && AllSpace(after)
    ensures StripFences(before + SqlFence + query + Fence + after) == query
    ensures StripFences(before + query + after) == query
  {
    StripFencesOfFenced(before, query, after);
    TrimOfTrimmed(query);
    TrimAround(before, query, after);
    StripFencesOfUnfenced(before + query + after);
  }

  /** The shape of an answer fenced without the `sql` tag: no edge whitespace, no "```sql"
      opening, and the closing mark preceded by a newline. */
  lemma BareFenceShape(query: string)
    requires Trimmed(query) && query != []
    ensures var answer := "```\n" + query + "\n```";
      && Trimmed(answer)
      && Trimmed("```\n" + query)
      && !StartsWith(answer, SqlFence)
      && EndsWith(answer, Fence)
      && answer[..|answer| - |Fence|] == ("```\n" + query) + "\n"
  {
    var answer := "```\n" + query + "\n```";
    assert answer[..|SqlFence|][3] == '\n' != SqlFence[3];
    assert answer[|answer| - |Fence|..] == Fence;
  }

  /** A fence without the `sql` tag loses only its closing mark: the opening "```" stays in
      the query that is then run. */
  lemma StripFencesKeepsBareFence(query: string)
    requires Trimmed(query) && query != []
    ensures StripFences("```\n" + query + "\n```") == "```\n" + query
  {
    var kept := "```\n" + query;
    var answer := "```\n" + query + "\n```";
    BareFenceShape(query);
    TrimOfTrimmed(answer);
    var t := Trim(answer);
    var b := t[..|t| - |Fence|];
    assert b == kept + "\n";
    TrimDropsNewline(kept);
  }

  /** The shape of an answer that repeats the "```sql" opening: no edge whitespace, and none
      at the edges of what is left once the first opening and the closing mark are removed. */
  lemma DoubledOpeningShape(query: string)
    requires query == [] || !IsSpace(query[|query| - 1])
    ensures Trimmed(SqlFence + ((SqlFence + query) + Fence))
    ensures Trimmed(SqlFence + query) && StartsWith(SqlFence + query, SqlFence)
  {
    var kept := SqlFence + query;
    var answer := SqlFence + (kept + Fence);
    assert answer[0] == '`' && answer[|answer| - 1] == '`';
    assert kept[0] == '`' && kept[|kept| - 1] == if query == [] then 'l' else query[|query| - 1];
    StartsWithConcat(SqlFence, query);
  }

  /** Only one "```sql" opening is removed: an answer that repeats it keeps the second one in
      the query that is then run. */
  lemma StripFencesCanKeepSqlFence(query: string)
    requires query == [] || !IsSpace(query[|query| - 1])
    ensures StripFences(SqlFence + SqlFence + query + Fence) == SqlFence + query
    ensures StartsWith(StripFences(SqlFence + SqlFence + query + Fence), SqlFence)
  {
    var kept := SqlFence + query;
    var answer := SqlFence + (kept + Fence);
    assert SqlFence + SqlFence + query + Fence == answer;
    DoubledOpeningShape(query);
    TrimOfTrimmed(answer);
    StripFencesOfTrimmedFenced(answer, kept);
    TrimOfTrimmed(kept);
  }

  /** A doubled opening, "```sql```sql x```", gives the query "```sql x". */
  lemma StripFencesDoubledOpening()
    ensures StripFences("```sql```sql x```") == "```sql x"
  {
    var query := " x";
    assert query[1] == 'x';
    StripFencesCanKeepSqlFence(query);
    var answer, kept := SqlFence + SqlFence + query + Fence, SqlFence + query;
    assert answer == "```sql```sql x```" by {
      assert |answer| == 17;
    }
    assert kept == "```sql x";
  }

  /** The query text for the model's response: the stripped answer, or the failure with its prefix. */
  function SqlText(response: Result<string, string>): (sql: string)
    ensures response.Success? ==> sql == StripFences(response.value)
    ensures response.Failure? ==> sql == SqlErrorPrefix + response.error
  {
    match response
    case Success(text) => StripFences(text)
    case Failure(e) => SqlErrorPrefix + e
  }

  /** What `generate_sql_query(question, db_name)` returns, and the requests it makes: whatever
      `get_table_schema` returned, error text included, goes into the prompt, and the model is
      asked in every case. */
  function GeneratedSql(agent: MedicalAgent, db: Sqlite, question: string, dbName: string): (r: Traced<string>)
    ensures var schema := SchemaDescription(agent, db, dbName);
      && r.calls == schema.calls + [Generate(SqlPrompt(schema.value, question))]
      && r.value == SqlText(agent.model(SqlPrompt(schema.value, question)))
    ensures |r.calls| <= 2
    ensures forall k :: 0 <= k < |r.calls| ==> r.calls[k].Generate? || r.calls[k].InspectSchema?
  {
    var schema := SchemaDescription(agent, db, dbName);
    var prompt := SqlPrompt(schema.value, question);
    Traced(SqlText(agent.model(prompt)), schema.calls + [Generate(prompt)])
  }

  /** A schema that could not be read does not stop the request: the error text becomes the
      prompt's schema and the model is still asked. */
  lemma SchemaErrorStillAsksModel(agent: MedicalAgent, db: Sqlite, question: string, dbName: string)
    requires StartsWith(SchemaDescription(agent, db, dbName).value, SchemaErrorPrefix)
    ensures var calls := GeneratedSql(agent, db, question, dbName).calls;
      calls[|calls| - 1] == Generate(SqlPrompt(SchemaDescription(agent, db, dbName).value, question))
  {
  }

  /** `generate_sql_query`, reassigning the query text step by step as the source does. */
  method GenerateSqlQuery(agent: MedicalAgent, db: Sqlite, question: string, dbName: string)
    returns (sqlQuery: string, calls: seq<Call>)
    ensures Traced(sqlQuery, calls) == GeneratedSql(agent, db, question, dbName)
    ensures agent.model(SqlPrompt(SchemaDescription(agent, db, dbName).value, question)).Success? ==> Trimmed(sqlQuery)
  {
    var schema, schemaCalls := GetTableSchema(agent, db, dbName);
    var prompt := SqlPrompt(schema, question);
    calls := schemaCalls + [Generate(prompt)];
    var response := agent.model(prompt);
    if response.Failure? {
      return SqlErrorPrefix + response.error, calls;
    }
    sqlQuery := Trim(response.value);
    if StartsWith(sqlQuery, SqlFence) {
      sqlQuery := sqlQuery[6..];
    }
    if EndsWith(sqlQuery, Fence) {
      sqlQuery := sqlQuery[..|sqlQuery| - 3];
    }
    sqlQuery := Trim(sqlQuery);
  }
}
