/** How `ask_question` classifies a question: its topic, its data intent, and the path it takes. */
module Router {
  import opened Text
  import opened Agent

  datatype Topic = Heart | Cancer | Diabetes | NoTopic

  const HeartTerms: seq<string> := ["heart", "cardiac", "cholesterol", "blood pressure"]
  const CancerTerms: seq<string> := ["cancer", "tumor", "malignant", "benign"]
  const DiabetesTerms: seq<string> := ["diabetes", "glucose", "insulin"]
  const DataKeywords: seq<string> :=
    ["data", "statistic", "analysis", "dataset", "record", "patient", "cases", "average", "count", "sum"]

  /** Some word of `words` occurs in `text`. */
  ghost predicate Mentions(text: string, words: seq<string>) {
    exists k :: 0 <= k < |words| && Contains(text, words[k])
  }

  /** `any(word in text for word in words)` */
  function MentionsAny(text: string, words: seq<string>): (b: bool)
    ensures b <==> Mentions(text, words)
  {
    if words == [] then false
    else if Contains(text, words[0]) then true
    else
      var rest := MentionsAny(text, words[1..]);
      assert forall k :: 1 <= k < |words| ==> words[k] == words[1..][k - 1];
      rest
  }

  /** The `if`/`elif` chain on the lower-cased question: heart terms are looked for first,
      then cancer terms, then diabetes terms, and the first list with a match decides. */
  function Classify(question: string): (t: Topic)
    ensures var q := Lower(question);
      && (t == Heart <==> Mentions(q, HeartTerms))
      && (t == Cancer <==> !Mentions(q, HeartTerms) && Mentions(q, CancerTerms))
      && (t == Diabetes <==> !Mentions(q, HeartTerms) && !Mentions(q, CancerTerms) && Mentions(q, DiabetesTerms))
      && (t == NoTopic <==> !Mentions(q, HeartTerms) && !Mentions(q, CancerTerms) && !Mentions(q, DiabetesTerms))
  {
    var q := Lower(question);
    if MentionsAny(q, HeartTerms) then Heart
    else if MentionsAny(q, CancerTerms) then Cancer
    else if MentionsAny(q, DiabetesTerms) then Diabetes
    else NoTopic
  }

  /** `has_data_keyword`: some data keyword occurs in the lower-cased question. */
  function HasDataIntent(question: string): (b: bool)
    ensures b <==> Mentions(Lower(question), DataKeywords)
  {
    MentionsAny(Lower(question), DataKeywords)
  }

  /** The database key `db_to_use` holds for a topic: always one the agent has a file for. */
  function DbName(t: Topic): (name: string)
    requires t != NoTopic
    ensures name in DbPaths
    ensures (t == Heart <==> name == "heart") && (t == Cancer <==> name == "cancer")
      && (t == Diabetes <==> name == "diabetes")
  {
    match t
    case Heart => "heart"
    case Cancer => "cancer"
    case Diabetes => "diabetes"
  }

  datatype Route = DatabaseRoute(dbName: string) | WebRoute

  /** The database path is taken exactly when there is a topic and a data keyword; every
      other question goes to web search. */
  function RouteOf(question: string): (r: Route)
    ensures r.DatabaseRoute? <==> Classify(question) != NoTopic && Mentions(Lower(question), DataKeywords)
    ensures r.DatabaseRoute? ==> r.dbName == DbName(Classify(question))
    ensures r.DatabaseRoute? ==> r.dbName in {"heart", "cancer", "diabetes"}
  {
    var topic := Classify(question);
    if topic != NoTopic && HasDataIntent(question) then DatabaseRoute(DbName(topic)) else WebRoute
  }

  /** Matching ignores case: a question and its lower-cased form get the same topic, the same
      data intent and the same route. */
  lemma {:induction false} ClassifyIgnoresCase(question: string)
    ensures Classify(Lower(question)) == Classify(question)
    ensures HasDataIntent(Lower(question)) == HasDataIntent(question)
    ensures RouteOf(Lower(question)) == RouteOf(question)
  {
    LowerIdempotent(question);
  }

  /** Matching is raw substring containment, so keywords also match inside longer words:
      "sum" inside "consumption", "data" inside "database", "heart" inside "heartburn". */
  lemma {:induction false} KeywordsMatchInsideWords(question: string)
    ensures Contains(Lower(question), "consumption") ==> HasDataIntent(question)
    ensures Contains(Lower(question), "database") ==> HasDataIntent(question)
    ensures Contains(Lower(question), "heartburn") ==> Classify(question) == Heart
  {
    var q := Lower(question);
    if Contains(q, "consumption") {
      assert "consumption"[3..6] == "sum";
      assert OccursAt("consumption", "sum", 3);
      ContainsTransitive(q, "consumption", "sum");
      assert Contains(q, DataKeywords[9]);
    }
    if Contains(q, "database") {
      assert "database"[..4] == "data";
      assert OccursAt("database", "data", 0);
      ContainsTransitive(q, "database", "data");
      assert Contains(q, DataKeywords[0]);
    }
    if Contains(q, "heartburn") {
      assert "heartburn"[..5] == "heart";
      assert OccursAt("heartburn", "heart", 0);
      ContainsTransitive(q, "heartburn", "heart");
      assert Contains(q, HeartTerms[0]);
    }
  }
}
