# Medical AI agent: a Dafny model of its decision logic

This project models the core of `MedicalAIAgent` (medical_agent.py): how a medical question
is routed, and how each route builds its answer. A question mentioning a heart, cancer or
diabetes term together with a data word goes to that topic's SQLite database. The
database route reads the schema, asks the model for SQL, strips the Markdown fence from the
reply, runs the query and asks the model to interpret the rows. Every other question goes to
a web search, and the model answers from the search results.

The generative model, the Tavily client and the sqlite3/pandas layer are not modelled. Each
appears as a function from its request to a result or to the text of the exception it raised
(`Agent.Model`, `Agent.SearchClient`, `Agent.Sqlite`). The requests the agent makes are
returned as `Call`s in a `Traced` value, one `Call` per collaborator function the agent
invokes (see "## Left out" for what one `Call` folds together). The proofs can therefore
say which collaborators a path invokes, in which order, and which ones it never touches.

Modules, one per part of the agent:

- `Wrappers`: the `Option` and `Result` types.
- `Text`: the Python `str` operations the agent uses: `strip`, `lower`, `in`, `join`,
  `startswith`/`endswith`. It also has `split` and line joining for the read-back parsers.
- `Agent`: the entities, the collaborators, the request log and `__init__`.
- `Router`: topic and data-intent classification, and the choice of route.
- `Schema`: `get_table_schema`, as a method with the source's nested loops. It is proved
  equal to a rendering function, and a parser reads the rendered text back.
- `Search`: `web_search`, its results text, and a parser that reads that text back.
- `SqlGen`: `generate_sql_query`, with fence stripping.
- `Database`: `query_database`.
- `Ask`: `ask_question`, with its fail-fast checks.

Five behaviours of the code are easy to get wrong, and the model follows the code:

- A schema that cannot be read does not stop the database route. `generate_sql_query` puts
  the schema error text into the prompt as the schema and still asks the model
  (`SqlGen.GeneratedSql`, `SqlGen.SchemaErrorStillAsksModel`).
- Without a search client, the web route still asks the model to synthesize an answer. It
  passes the "not configured" message in place of search results (`Ask.WebPathWithoutClient`).
- Fence stripping removes one "```sql" opening and one "```" closing. A reply fenced with a
  bare "```" keeps its opening mark, so the query that runs starts with "```"
  (`SqlGen.StripFencesKeepsBareFence`).
- Each mark is removed on its own. A reply such as "```sql\nSELECT 1\n```\nThis query
  counts..." loses only its opening, so the closing mark and the prose after it stay in the
  query that runs (`SqlGen.StripFencesOfOpeningOnly`, `SqlGen.StripFencesOfClosingOnly`).
- A reply that repeats the opening, such as "```sql```sql x```", loses only the first one: the
  query that runs is "```sql x" (`SqlGen.StripFencesCanKeepSqlFence`,
  `SqlGen.StripFencesDoubledOpening`).

## Model

| member | source | states |
|---|---|---|
| Agent.NewAgent | medical_agent.py:8-21 | the search client exists exactly when the Tavily key is present and non-empty, and it is the one made from that key; the model is kept; the database keys are heart, cancer and diabetes, mapped to databases/heart_disease.db, databases/cancer.db and databases/diabetes.db |
| Agent.KeyErrorText | medical_agent.py:26 | plain definition of `str(e)` for the KeyError an unknown key raises, the key between single quotes; Schema.SchemaDescription and Database.QueryDatabase state where it appears |
| Text.Trim | medical_agent.py:86-91 | `strip()` leaves no whitespace (in Python's sense) at either end and never lengthens the text |
| Text.TrimRemovesOnlyEdgeSpace | medical_agent.py:86-91 | `strip()` cuts the text into leading whitespace, the result and trailing whitespace, so nothing inside is touched |
| Text.TrimAround | medical_agent.py:86-91 | whitespace around a trimmed text is exactly what `strip()` removes |
| Text.StartsWith | medical_agent.py:87-121 | plain definition of `s.startswith(p)` (lines 87, 115 and 120): `p` fits in `s` and is its prefix; the empty prefix always matches; Text.StartsWithConcat and Text.StartsWithAppend state its properties |
| Text.EndsWith | medical_agent.py:89 | plain definition of `s.endswith(p)`: `p` fits in `s` and is its suffix; the empty suffix always matches; Text.EndsWithConcat states its properties |
| Text.Contains | medical_agent.py:101-110 | `word in text` holds exactly when the word occurs at some index of the text |
| Text.Lower | medical_agent.py:97 | the model's ASCII lower-casing keeps the length, turns each capital A-Z into its own small letter, and leaves every other character unchanged |
| Text.LowerIdempotent | medical_agent.py:97 | lower-casing twice is lower-casing once |
| Router.MentionsAny | medical_agent.py:101-110 | `any(word in text for word in words)` holds exactly when some word of the list occurs in the text |
| Text.Join | medical_agent.py:62-63 | plain definition of `sep.join(parts)`; Text.JoinThree gives it for three parts and Text.SplitJoin proves that splitting at the separator gives the parts back |
| Router.Classify | medical_agent.py:97-106 | heart terms win over cancer terms, and cancer terms win over diabetes terms; no term gives no topic; each direction of each case is stated |
| Router.HasDataIntent | medical_agent.py:109-110 | data intent holds exactly when one of the ten data keywords occurs in the lower-cased question |
| Router.DbName | medical_agent.py:100-106 | heart gives "heart", cancer gives "cancer", diabetes gives "diabetes", each in both directions, and every key chosen is one the agent has a database file for |
| Router.RouteOf | medical_agent.py:97-112 | the database route is taken exactly when there is a topic and a data keyword, and it uses that topic's key (fixed by Router.DbName); every other question takes the web route |
| Router.ClassifyIgnoresCase | medical_agent.py:97-112 | a question and its lower-cased form get the same topic, data intent and route |
| Router.KeywordsMatchInsideWords | medical_agent.py:101-110 | containment is raw: "consumption" and "database" count as data words, and "heartburn" makes the topic heart |
| Schema.ReadTables | medical_agent.py:42-45 | reading succeeds with one table per name, in order, each with its `PRAGMA table_info` columns; otherwise it fails with the first failing table's error |
| Schema.ReadTablesFailureStays | medical_agent.py:42-53 | once reading one table has failed, reading more tables keeps that failure |
| Schema.SchemaText | medical_agent.py:41-48 | plain definition of the description (built from SchemaLines, TablesLines, TableLines and ColumnLine): header line, then each table's line and its indented column lines, each ending in a newline; Schema.SchemaTextHeader, Schema.SchemaTextExtend, Schema.GetTableSchema and Schema.SchemaRoundTrip state its properties |
| Schema.SchemaTextHeader | medical_agent.py:41 | the description begins with "Database: " and the name, then a newline |
| Schema.SchemaTextExtend | medical_agent.py:42-48 | describing one more table appends exactly that table's lines |
| Schema.DescribeFile | medical_agent.py:36-53 | a failed table listing gives the schema prefix and its error; otherwise, when every PRAGMA read succeeds, the description of the tables read, and else the prefix and the first failing read's error |
| Schema.SchemaDescription | medical_agent.py:33-53 | an unknown key gives the prefixed KeyError text and opens nothing; a known key opens its file once and gives the description of the tables read (`SchemaText`) when every read succeeds, or the prefix and the failing read's error |
| Schema.GetTableSchema | medical_agent.py:33-53 | the nested loops that grow `schema_info` with `+=` compute exactly `SchemaDescription`, requests included |
| Schema.AppendTable | medical_agent.py:46-48 | one pass of the outer loop appends the table's line and then one indented `name (type)` line per column, in order |
| Schema.SchemaOfOneTable | medical_agent.py:41-48 | a table T with columns c1 int and c2 text is described as the header, T's line, then both columns with their types, in order |
| Schema.ParseColumnLine | medical_agent.py:48 | a column line reads back as the column it was made from |
| Schema.ParseColumnLines | medical_agent.py:47-48 | the column lines of a table read back as its columns, in order |
| Schema.ParseTablesLines | medical_agent.py:42-48 | the lines of the tables read back as those tables, each with its columns, in order |
| Schema.SchemaRoundTrip | medical_agent.py:41-48 | reading a description back gives the database name and the tables, with all their columns, that it was made from, so it emits nothing else |
| Schema.SchemaDescriptionReadsBack | medical_agent.py:33-53 | when every read succeeds, what `get_table_schema` returns reads back as the database name and the tables read, with their columns, in order |
| Search.HitBlock | medical_agent.py:62 | plain definition of one result's block; Search.HitBlockLines, Search.ParseHitBlock and Search.HitBlockSeparable state its properties |
| Search.SearchText | medical_agent.py:62-63 | plain definition of the blocks joined by a blank line; Search.SearchTextStart and Search.SearchRoundTrip state its properties |
| Search.SearchTextStart | medical_agent.py:62-63 | the results text is empty for no results and otherwise starts with the first result's block, so it never starts with "Error" |
| Search.WebSearch | medical_agent.py:55-65 | without a client, the fixed message and no search; with one, exactly one search for at most 3 results, then the rendered results or the prefixed error |
| Search.ResultsText | medical_agent.py:60-65 | rendered results never start with "Error" |
| Search.HitBlockLines | medical_agent.py:62 | a result's block is its Title, URL and Content lines joined by newlines |
| Search.SplitHitBlock | medical_agent.py:62 | splitting a result's block at its newlines gives its Title, URL and Content lines |
| Search.ParseHitBlock | medical_agent.py:62 | a result's block reads back as that result |
| Search.HitBlockSeparable | medical_agent.py:62-63 | a block has no blank line inside it, so the blank-line separator finds the block boundaries |
| Search.ParseHitBlocks | medical_agent.py:62-63 | a list of blocks reads back as the results it was made from |
| Search.SearchRoundTrip | medical_agent.py:62-63 | reading the results text back gives the results, in order, when each field fits on one line |
| SqlGen.StripFences | medical_agent.py:86-91 | the extracted query has no edge whitespace and is never longer than the reply |
| SqlGen.StripFencesOfUnfenced | medical_agent.py:86-91 | a reply with neither fence mark is returned merely trimmed |
| SqlGen.StripFencesOfTrimmedFenced | medical_agent.py:86-91 | a trimmed reply of the form "```sql" + q + "```" gives q trimmed |
| SqlGen.StripFencesOfOpeningOnly | medical_agent.py:86-91 | a stripped reply that opens with "```sql" but does not end with "```" loses only the opening, and the rest comes back trimmed |
| SqlGen.StripFencesOfClosingOnly | medical_agent.py:86-91 | a stripped reply that ends with "```" but does not open with "```sql" loses only the closing mark, and the rest comes back trimmed |
| SqlGen.StripFencesOfFenced | medical_agent.py:86-91 | a "```sql" ... "```" fence with any whitespace around it is removed, along with the whitespace inside it |
| SqlGen.StripFencesRoundTrip | medical_agent.py:86-91 | a trimmed query without fence marks at its ends comes back unchanged, whether or not it was fenced |
| SqlGen.BareFenceShape | medical_agent.py:87-90 | a reply fenced with a bare "```" does not start with "```sql" but does end with "```" |
| SqlGen.StripFencesKeepsBareFence | medical_agent.py:86-91 | for a reply fenced with a bare "```", only the closing mark is removed |
| SqlGen.DoubledOpeningShape | medical_agent.py:86-91 | a reply that repeats "```sql" has no edge whitespace, and neither has what is left after removing the first opening and the closing mark |
| SqlGen.StripFencesCanKeepSqlFence | medical_agent.py:86-91 | only one "```sql" opening is removed: a reply that repeats it gives a query that still starts with "```sql" |
| SqlGen.StripFencesDoubledOpening | medical_agent.py:86-91 | "```sql```sql x```" gives the query "```sql x" |
| SqlGen.SqlText | medical_agent.py:83-93 | the model's reply with fences stripped, or the failure with the SQL prefix |
| SqlGen.GeneratedSql | medical_agent.py:67-93 | the schema request, if any, then exactly one model request whose prompt holds the schema text, error included; at most two requests, none of them a search or a query |
| SqlGen.SchemaErrorStillAsksModel | medical_agent.py:69-84 | a schema error does not stop the model from being asked, with the error text as its schema |
| SqlGen.GenerateSqlQuery | medical_agent.py:67-93 | reassigning the query step by step computes exactly `GeneratedSql`, and a reply gives a query with no edge whitespace |
| Database.QueryDatabase | medical_agent.py:23-31 | an unknown key fails with the prefixed KeyError text and runs nothing; otherwise the query runs once on the key's file, rows come back exactly when reading succeeds, and every failure text starts with the query prefix |
| Ask.FailurePrefixesAreMarked | medical_agent.py:31-162 | the query (line 31), SQL (line 93), interpretation (line 140) and synthesis (line 162) failure prefixes all start with "Error" |
| Ask.Conclude | medical_agent.py:136-140 | the final request is the last one made; the answer is the model's text, or its failure with the step's prefix |
| Ask.ConcludeFromModel | medical_agent.py:136-140 | with an "Error" prefix, an answer that does not start with "Error" is the model's text for the prompt |
| Ask.Synthesize | medical_agent.py:142-162 | the web route searches (or not) and then always asks the model once; it makes one or two requests, only searches and model requests |
| Ask.QueryAndInterpret | medical_agent.py:118-140 | a failed query is the answer and no interpretation is asked; rows are handed to the model with the question and the query; at most two more requests, only query runs and model requests |
| Ask.AnswerFromQuery | medical_agent.py:112-140 | a generated query starting with "Error" is the answer and nothing more is requested; any other query is run and its rows interpreted; the SQL requests come first and are kept; at most two more requests, only query runs and model requests; an answer not starting with "Error" is the model's reply to the last of exactly two more requests |
| Ask.AskQuestion | medical_agent.py:95-162 | the route chosen by `RouteOf` decides the path; one to four requests in all |
| Ask.AnswerComesFromModel | medical_agent.py:112-162 | nothing is raised: an answer that does not start with "Error" is the model's text for the last request made |
| Ask.PathsKeepToTheirCollaborators | medical_agent.py:112-162 | the database route never searches, and the web route never opens a database |
| Ask.ErrorLookingQueryIsReturned | medical_agent.py:114-116 | a model reply whose stripped text starts with "Error" is taken for a failure: it is the answer, no query runs and the model is not asked again |
| Ask.FailedQueryIsReturned | medical_agent.py:118-121 | a failed query's text is returned unchanged, starts with the query prefix, and no interpretation is requested |
| Ask.WebPathWithoutClient | medical_agent.py:142-159 | without a search client the only request is a synthesis with the "not configured" message as its results |
| Ask.WebPathWithClient | medical_agent.py:142-159 | with a search client, one search for at most three results, then one synthesis of its text |

## Left out

- The wording of the three prompts: a prompt is modelled as the values it embeds (schema and question; question, query and rendered rows; question and search results).
- The model's nondeterminism: `Agent.Model` is a function, so asking the same prompt twice gives the same reply.
- Opening and closing the SQLite connection is one logged request per function. In `get_table_schema` that one `InspectSchema` request covers the `sqlite_master` listing and every `PRAGMA table_info` read. These are not logged one by one.
- `DataFrame.to_string()` is an opaque function of the frame (`Sqlite.frameText`). The frame's contents and rendering are not modelled.
- The Streamlit page in app.py is not part of this model.
- Text.Lower: lower-cases the ASCII letters only; Python's `str.lower()` also maps the other Unicode letters, and can lengthen the text. This cannot change a route: the only non-ASCII letters that lower-case to ASCII are the Kelvin sign (to "k") and the dotted capital I (to "i" followed by a combining dot), no keyword contains "k", and none ends in "i"; every other letter stays outside ASCII either way, so it cannot be part of a keyword.
- Agent.KeyErrorText: puts the key between single quotes; the escaping Python's `repr` applies to keys holding quotes or control characters is not modelled.
- Exceptions are modelled by the text `str(e)` they carry; the exception types, and exceptions raised while rendering or building prompts, are not modelled.
- Schema.SchemaRoundTrip, Search.SearchRoundTrip: the read-back holds only for names, types and fields that fit on one line (and, for column names, contain no " ("). The source renders other texts too; they are not readable back.
