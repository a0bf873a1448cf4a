/** `ask_question` (medical_agent.py, lines 95-162): route the question, then either answer it
    from one of the databases or from a web search, with the model writing the final answer. */
module Ask {
  import opened Wrappers
  import opened Text
  import opened Agent
  import opened Router
  import opened Search
  import opened Schema
  import opened SqlGen
  import opened Database

  const InterpretErrorPrefix := "Error interpreting results: "
  const SynthesisErrorPrefix := "Error synthesizing search results: "

  /** The prefix every failure text of the agent starts with. */
  const ErrorMark := "Error"

  /** Every step's failure prefix starts with "Error", so whatever a step fails with is
      recognised as a failure by the checks of `ask_question`. */
  lemma FailurePrefixesAreMarked()
    ensures StartsWith(QueryErrorPrefix, ErrorMark)
    ensures StartsWith(SqlErrorPrefix, ErrorMark)
    ensures StartsWith(InterpretErrorPrefix, ErrorMark)
    ensures StartsWith(SynthesisErrorPrefix, ErrorMark)
  {
    assert QueryErrorPrefix[..5] == ErrorMark;
    assert SqlErrorPrefix[..5] == ErrorMark;
    assert InterpretErrorPrefix[..5] == ErrorMark;
    assert SynthesisErrorPrefix[..5] == ErrorMark;
  }

  /** The final request of either path: the model is asked `prompt` after the requests in
      `calls`, and its text, or its failure with the step's prefix, is the answer. */
  function Conclude(agent: MedicalAgent, prompt: Prompt, errorPrefix: string, calls: seq<Call>): (r: Traced<string>)
    ensures r.calls == calls + [Generate(prompt)]
    ensures agent.model(prompt).Success? ==> r.value == agent.model(prompt).value
    ensures agent.model(prompt).Failure? ==> r.value == errorPrefix + agent.model(prompt).error
  {
    match agent.model(prompt)
    case Success(text) => Traced(text, calls + [Generate(prompt)])
    case Failure(e) => Traced(errorPrefix + e, calls + [Generate(prompt)])
  }

  /** With a failure prefix that starts with "Error", an answer that does not is exactly the
      model's text for the final request. */
  lemma ConcludeFromModel(agent: MedicalAgent, prompt: Prompt, errorPrefix: string, calls: seq<Call>)
    requires StartsWith(errorPrefix, ErrorMark)
    ensures var r := Conclude(agent, prompt, errorPrefix, calls);
      !StartsWith(r.value, ErrorMark) ==> agent.model(prompt) == Success(r.value)
  {
    if agent.model(prompt).Failure? {
      StartsWithAppend(errorPrefix, ErrorMark, agent.model(prompt).error);
    }
  }

  /** The web path: search, then ask the model to answer from whatever the search gave back,
      even the "not configured" message or a search failure. */
  function Synthesize(agent: MedicalAgent, question: string): (r: Traced<string>)
    ensures var search := WebSearch(agent, question);
      r == Conclude(agent, SynthesisPrompt(question, search.value), SynthesisErrorPrefix, search.calls)
    ensures 1 <= |r.calls| <= 2
    ensures forall k :: 0 <= k < |r.calls| ==> r.calls[k].Generate? || r.calls[k].Search?
  {
    var search := WebSearch(agent, question);
    Conclude(agent, SynthesisPrompt(question, search.value), SynthesisErrorPrefix, search.calls)
  }

  /** The database path once a query is in hand: a failed query is the answer, and its text
      always starts with "Error"; otherwise the model is asked to interpret the rows. */
  function QueryAndInterpret(agent: MedicalAgent, db: Sqlite, question: string, dbName: string, sql: string, calls: seq<Call>)
    : (r: Traced<string>)
    ensures var q := QueryDatabase(agent, db, dbName, sql);
      q.value.Failed? ==> r == Traced(q.value.message, calls + q.calls)
    ensures var q := QueryDatabase(agent, db, dbName, sql);
      q.value.Rows? ==>
        r == Conclude(agent, InterpretPrompt(question, sql, db.frameText(q.value.frame)), InterpretErrorPrefix, calls + q.calls)
    ensures |calls| <= |r.calls| <= |calls| + 2
    ensures !StartsWith(r.value, ErrorMark) ==> |r.calls| == |calls| + 2
    ensures forall k :: 0 <= k < |calls| ==> r.calls[k] == calls[k]
    ensures forall k :: |calls| <= k < |r.calls| ==> r.calls[k].RunQuery? || r.calls[k].Generate?
    ensures !StartsWith(r.value, ErrorMark) ==>
      r.calls[|r.calls| - 1].Generate? && agent.model(r.calls[|r.calls| - 1].prompt) == Success(r.value)
  {
    var q := QueryDatabase(agent, db, dbName, sql);
    FailurePrefixesAreMarked();
    match q.value
    case Failed(message) =>
      StartsWithShorter(message, QueryErrorPrefix, ErrorMark);
      Traced(message, calls + q.calls)
    case Rows(frame) =>
      var prompt := InterpretPrompt(question, sql, db.frameText(frame));
      ConcludeFromModel(agent, prompt, InterpretErrorPrefix, calls + q.calls);
      Conclude(agent, prompt, InterpretErrorPrefix, calls + q.calls)
  }

  /** The database path once the query has been generated. A query text that starts with
      "Error" is the answer, and nothing more is asked; otherwise the query is run and its
      outcome concludes the answer, with at most two more requests: the query and the model. */
  function AnswerFromQuery(agent: MedicalAgent, db: Sqlite, question: string, dbName: string, sql: Traced<string>)
    : (r: Traced<string>)
    ensures StartsWith(sql.value, ErrorMark) ==> r == sql
    ensures !StartsWith(sql.value, ErrorMark) ==> r == QueryAndInterpret(agent, db, question, dbName, sql.value, sql.calls)
    ensures |sql.calls| <= |r.calls| <= |sql.calls| + 2
    ensures forall k :: 0 <= k < |sql.calls| ==> r.calls[k] == sql.calls[k]
    ensures forall k :: |sql.calls| <= k < |r.calls| ==> r.calls[k].RunQuery? || r.calls[k].Generate?
    ensures !StartsWith(r.value, ErrorMark) ==>
      && |r.calls| == |sql.calls| + 2
      && r.calls[|r.calls| - 1].Generate? && agent.model(r.calls[|r.calls| - 1].prompt) == Success(r.value)
  {
    if StartsWith(sql.value, ErrorMark) then sql
    else QueryAndInterpret(agent, db, question, dbName, sql.value, sql.calls)
  }

  /** What `ask_question(question)` returns, and every request it makes on the way. */
  function AskQuestion(agent: MedicalAgent, db: Sqlite, question: string): (r: Traced<string>)
    ensures RouteOf(question).WebRoute? ==> r == Synthesize(agent, question)
    ensures RouteOf(question).DatabaseRoute? ==>
      var dbName := RouteOf(question).dbName;
      r == AnswerFromQuery(agent, db, question, dbName, GeneratedSql(agent, db, question, dbName))
    ensures 1 <= |r.calls| <= 4
  {
    match RouteOf(question)
    case WebRoute => Synthesize(agent, question)
    case DatabaseRoute(dbName) => AnswerFromQuery(agent, db, question, dbName, GeneratedSql(agent, db, question, dbName))
  }

  /** Nothing is raised to the caller, and an answer that does not start with "Error" is the
      text the model gave for the last request made: the interpretation of the rows or the
      synthesis of the search results. */
  lemma AnswerComesFromModel(agent: MedicalAgent, db: Sqlite, question: string)
    ensures var r := AskQuestion(agent, db, question);
      !StartsWith(r.value, ErrorMark) ==>
        r.calls[|r.calls| - 1].Generate? && agent.model(r.calls[|r.calls| - 1].prompt) == Success(r.value)
  {
    if RouteOf(question).WebRoute? {
      var search := WebSearch(agent, question);
      FailurePrefixesAreMarked();
      ConcludeFromModel(agent, SynthesisPrompt(question, search.value), SynthesisErrorPrefix, search.calls);
    }
  }

  /** Each path touches only its own collaborators: the database path never searches the web,
      and the web path never opens a database. */
  lemma PathsKeepToTheirCollaborators(agent: MedicalAgent, db: Sqlite, question: string)
    ensures var r := AskQuestion(agent, db, question);
      RouteOf(question).DatabaseRoute? ==> forall k :: 0 <= k < |r.calls| ==> !r.calls[k].Search?
    ensures var r := AskQuestion(agent, db, question);
      RouteOf(question).WebRoute? ==> forall k :: 0 <= k < |r.calls| ==> !r.calls[k].InspectSchema? && !r.calls[k].RunQuery?
  {
    if RouteOf(question).DatabaseRoute? {
      var sql := GeneratedSql(agent, db, question, RouteOf(question).dbName);
      var r := AskQuestion(agent, db, question);
      forall k | 0 <= k < |r.calls|
        ensures !r.calls[k].Search?
      {
        if k < |sql.calls| {
          assert r.calls[k] == sql.calls[k];
        }
      }
    }
  }

  /** A model reply for the query that, once its fences are stripped, starts with "Error" is taken
      for a failure: it becomes the answer, no query is run and the model is not asked again. */
  lemma ErrorLookingQueryIsReturned(agent: MedicalAgent, db: Sqlite, question: string, text: string)
    requires RouteOf(question).DatabaseRoute?
    requires var schema := SchemaDescription(agent, db, RouteOf(question).dbName);
      agent.model(SqlPrompt(schema.value, question)) == Success(text)
    requires StartsWith(StripFences(text), ErrorMark)
    ensures var schema := SchemaDescription(agent, db, RouteOf(question).dbName);
      AskQuestion(agent, db, question) == Traced(StripFences(text), schema.calls + [Generate(SqlPrompt(schema.value, question))])
  {
  }

  /** A failed query is the answer: the model is not asked to interpret anything. */
  lemma FailedQueryIsReturned(agent: MedicalAgent, db: Sqlite, question: string)
    requires RouteOf(question).DatabaseRoute?
    requires var g := GeneratedSql(agent, db, question, RouteOf(question).dbName);
      !StartsWith(g.value, ErrorMark) && QueryDatabase(agent, db, RouteOf(question).dbName, g.value).value.Failed?
    ensures var g := GeneratedSql(agent, db, question, RouteOf(question).dbName);
      var q := QueryDatabase(agent, db, RouteOf(question).dbName, g.value);
      && AskQuestion(agent, db, question) == Traced(q.value.message, g.calls + q.calls)
      && StartsWith(AskQuestion(agent, db, question).value, QueryErrorPrefix)
  {
  }

  /** Without a search client the web path still asks the model, with the "not configured"
      message in place of search results, and that is the only request made. */
  lemma WebPathWithoutClient(agent: MedicalAgent, db: Sqlite, question: string)
    requires RouteOf(question).WebRoute? && agent.tavilyClient.None?
    ensures AskQuestion(agent, db, question).calls == [Generate(SynthesisPrompt(question, NotConfigured))]
  {
  }

  /** With a search client the web path searches once, for at most three results, and then
      asks the model once. */
  lemma WebPathWithClient(agent: MedicalAgent, db: Sqlite, question: string)
    requires RouteOf(question).WebRoute? && agent.tavilyClient.Some?
    ensures var r := AskQuestion(agent, db, question);
      && |r.calls| == 2
      && r.calls[0] == Search(question, 3)
      && r.calls[1] == Generate(SynthesisPrompt(question, WebSearch(agent, question).value))
  {
  }
}
