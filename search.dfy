/** `web_search` (medical_agent.py, lines 55-65): the text of the top search results, and a parse
    that reads such a text back. */
module Search {
  import opened Wrappers
  import opened Text
  import opened Agent

  const NotConfigured := "Web search is not configured. Please provide a Tavily API key."
  const SearchErrorPrefix := "Error performing web search: "
  const MaxResults: nat := 3

  /** `f"Title: {r['title']}\nURL: {r['url']}\nContent: {r['content']}"` */
  function HitBlock(h: Hit): string {
    "Title: " + h.title + "\nURL: " + h.url + "\nContent: " + h.content
  }

  function HitBlocks(hits: seq<Hit>): seq<string> {
    seq(|hits|, i requires 0 <= i < |hits| => HitBlock(hits[i]))
  }

  /** One block per result, in order, separated by a blank line. */
  function SearchText(hits: seq<Hit>): string {
    Join("\n\n", HitBlocks(hits))
  }

  /** The results text is empty for no results and otherwise starts with the first block. */
  lemma SearchTextStart(hits: seq<Hit>)
    ensures hits == [] ==> SearchText(hits) == ""
    ensures hits != [] ==> StartsWith(SearchText(hits), HitBlock(hits[0])) && StartsWith(SearchText(hits), "Title: ")
    ensures !StartsWith(SearchText(hits), "Error")
  {
    if |hits| > 1 {
      var blocks := HitBlocks(hits);
      assert SearchText(hits) == blocks[0] + ("\n\n" + Join("\n\n", blocks[1..]));
    }
    if hits != [] {
      assert SearchText(hits)[..7] == "Title: ";
      assert SearchText(hits)[0] == 'T';
    }
  }

  /** What `web_search(query)` returns, and the search it asks for. Without a client nothing is
      asked and the fixed message comes back; otherwise one search for at most three results,
      whose text never starts with "Error" unless the search failed. */
  function WebSearch(agent: MedicalAgent, query: string): (r: Traced<string>)
    ensures agent.tavilyClient.None? ==> r == Traced(NotConfigured, [])
    ensures agent.tavilyClient.Some? ==> r.calls == [Search(query, MaxResults)]
    ensures agent.tavilyClient.Some? ==>
      match agent.tavilyClient.value(query, MaxResults)
      case Success(hits) => r.value == SearchText(hits) && !StartsWith(r.value, "Error")
      case Failure(e) => r.value == SearchErrorPrefix + e
  {
    match agent.tavilyClient
    case None => Traced(NotConfigured, [])
    case Some(client) => Traced(ResultsText(client(query, MaxResults)), [Search(query, MaxResults)])
  }

  /** The text for a search response: the rendered results, or the failure with its prefix. */
  function ResultsText(response: Result<seq<Hit>, string>): (text: string)
    ensures response.Success? ==> !StartsWith(text, "Error")
  {
    match response
    case Failure(e) => SearchErrorPrefix + e
    case Success(hits) =>
      SearchTextStart(hits);
      SearchText(hits)
  }

  // ---------------------------------------------------------------------------
  // Reading a results text back
  // ---------------------------------------------------------------------------

  function ParseHit(block: string): Option<Hit> {
    var lines := Split(block, "\n");
    if |lines| == 3 && StartsWith(lines[0], "Title: ") && StartsWith(lines[1], "URL: ")
       && StartsWith(lines[2], "Content: ")
    then Some(Hit(lines[0][7..], lines[1][5..], lines[2][9..]))
    else None
  }

  function ParseHits(blocks: seq<string>): Option<seq<Hit>> {
    if blocks == [] then Some([])
    else
      match ParseHit(blocks[0])
      case None => None
      case Some(h) =>
        match ParseHits(blocks[1..])
        case None => None
        case Some(hs) => Some([h] + hs)
  }

  function ParseSearchText(text: string): Option<seq<Hit>> {
    if text == "" then Some([]) else ParseHits(Split(text, "\n\n"))
  }

  /** A result whose fields each fit on one line. */
  predicate HitReadable(h: Hit) {
    OneLine(h.title) && OneLine(h.url) && OneLine(h.content)
  }

  /** The three lines of a result's block. */
  function HitLines(h: Hit): seq<string> {
    ["Title: " + h.title, "URL: " + h.url, "Content: " + h.content]
  }

  lemma HitBlockLines(h: Hit)
    ensures HitBlock(h) == Join("\n", HitLines(h))
    ensures HitBlock(h) + "\n" == Unlines(HitLines(h))
  {
    var l1, l2, l3 := "Title: " + h.title, "URL: " + h.url, "Content: " + h.content;
    assert "\nURL: " == "\n" + "URL: " && "\nContent: " == "\n" + "Content: ";
    assert HitBlock(h) == l1 + "\n" + l2 + "\n" + l3;
    JoinThree("\n", l1, l2, l3);
    UnlinesThree(l1, l2, l3);
  }

  lemma HitLinesOneLine(h: Hit)
    requires HitReadable(h)
    ensures forall k :: 0 <= k < 3 ==> HitLines(h)[k] != [] && OneLine(HitLines(h)[k])
  {
    assert OneLine("Title: ") && OneLine("URL: ") && OneLine("Content: ");
  }

  /** Splitting a block at its newlines gives back its three lines. */
  lemma SplitHitBlock(h: Hit)
    requires HitReadable(h)
    ensures Split(HitBlock(h), "\n") == HitLines(h)
  {
    var lines := HitLines(h);
    HitBlockLines(h);
    HitLinesOneLine(h);
    forall k | 0 <= k < 3 ensures Separable(lines[k], "\n") {
      OneLineHasNoNewline(lines[k]);
      assert lines[k] + "\n"[..0] == lines[k];
    }
    SplitJoin("\n", lines);
  }

  lemma ParseHitBlock(h: Hit)
    requires HitReadable(h)
    ensures ParseHit(HitBlock(h)) == Some(h)
  {
    SplitHitBlock(h);
    StartsWithConcat("Title: ", h.title);
    StartsWithConcat("URL: ", h.url);
    StartsWithConcat("Content: ", h.content);
  }

  /** No blank line inside a block, so blocks can be told apart at the blank lines between them. */
  lemma HitBlockSeparable(h: Hit)
    requires HitReadable(h)
    ensures Separable(HitBlock(h), "\n\n")
  {
    HitBlockLines(h);
    HitLinesOneLine(h);
    UnlinesNoBlankLine(HitLines(h));
    NoBlankLineHasNoDoubleNewline(Unlines(HitLines(h)));
    assert HitBlock(h) + "\n\n"[..1] == Unlines(HitLines(h));
  }

  lemma {:induction false} ParseHitBlocks(hits: seq<Hit>)
    requires forall h :: h in hits ==> HitReadable(h)
    ensures ParseHits(HitBlocks(hits)) == Some(hits)
    decreases |hits|
  {
    if hits != [] {
      ParseHitBlock(hits[0]);
      assert HitBlocks(hits)[1..] == HitBlocks(hits[1..]);
      ParseHitBlocks(hits[1..]);
      assert hits == [hits[0]] + hits[1..];
    }
  }

  /** Reading the results text back gives the results it was made from, when each field fits on
      one line. */
  lemma {:induction false} SearchRoundTrip(hits: seq<Hit>)
    requires forall h :: h in hits ==> HitReadable(h)
    ensures ParseSearchText(SearchText(hits)) == Some(hits)
  {
    SearchTextStart(hits);
    if hits != [] {
      var blocks := HitBlocks(hits);
      forall k | 0 <= k < |blocks| ensures Separable(blocks[k], "\n\n") {
        HitBlockSeparable(hits[k]);
      }
      SplitJoin("\n\n", blocks);
      ParseHitBlocks(hits);
    }
  }
}
