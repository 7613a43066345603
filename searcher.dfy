/** `Searcher`: the two retrievers' results for the cleaned queries, merged into one list. */
module Searcher {
  import opened Wrappers
  import opened Strings
  import opened TextUtils

  /** `search_searx` keeps at most this many words of a page. */
  const MaxWords := 400

  /**
   * The text `search_searx` keeps of a page: `' '.join(text.split())`, then the first 400 of
   * its words joined by single spaces.
   */
  function LimitWords(pageText: string): (content: string)
    ensures SingleSpaced(content)
    ensures Words(content) == Words(pageText)[..Min(MaxWords, |Words(pageText)|)]
    ensures |content| == 0 <==> |Words(pageText)| == 0
  {
    var words := Words(pageText);
    var pageContent := Join(words, " ");
    WordsOfJoin(words);
    var limited := SliceTo(Words(pageContent), MaxWords);
    assert forall k :: 0 <= k < |limited| ==> limited[k] == words[k];
    JoinIsSingleSpaced(limited);
    WordsOfJoin(limited);
    Join(limited, " ")
  }

  /** Limiting an already limited text changes nothing. */
  lemma LimitWordsIdempotent(pageText: string)
    ensures LimitWords(LimitWords(pageText)) == LimitWords(pageText)
  {
    var words := Words(pageText);
    WordsOfJoin(words);
    var limited := words[..Min(MaxWords, |words|)];
    assert SliceTo(Words(Join(words, " ")), MaxWords) == limited;
    var content := LimitWords(pageText);
    assert content == Join(limited, " ");
    assert forall k :: 0 <= k < |limited| ==> limited[k] == words[k];
    WordsOfJoin(limited);
    assert SliceTo(limited, MaxWords) == limited;
  }

  /**
   * `search_searx` once the HTTP requests and HTML parsing are abstracted: `pageText` is the
   * text of the first hit's page, or None when the search has no results.
   */
  function SearchSearx(pageText: Option<string>): (content: Option<string>)
    ensures content.None? <==> pageText.None?
    ensures content.Some? ==> SingleSpaced(content.value) && |Words(content.value)| <= MaxWords
    ensures content.Some? ==>
      Words(content.value) == Words(pageText.value)[..Min(MaxWords, |Words(pageText.value)|)]
  {
    match pageText
    case None => None
    case Some(text) => Some(LimitWords(text))
  }

  /** The list comprehension `[retrieve(q) for q in queries if retrieve(q) is not None]`. */
  function Hits(queries: seq<string>, retrieve: string -> Option<string>): (found: seq<string>)
    ensures |found| <= |queries|
    ensures forall s :: s in found ==> exists q :: q in queries && retrieve(q) == Some(s)
    ensures forall q :: q in queries && retrieve(q).Some? ==> retrieve(q).value in found
    decreases |queries|
  {
    if |queries| == 0 then []
    else
      var rest := Hits(queries[1..], retrieve);
      assert forall q :: q in queries[1..] ==> q in queries;
      assert forall q :: q in queries ==> q == queries[0] || q in queries[1..];
      if retrieve(queries[0]).Some? then [retrieve(queries[0]).value] + rest else rest
  }

  lemma {:induction false} HitsAppend(a: seq<string>, b: seq<string>, retrieve: string -> Option<string>)
    ensures Hits(a + b, retrieve) == Hits(a, retrieve) + Hits(b, retrieve)
    decreases |a|
  {
    if |a| > 0 {
      assert (a + b)[1..] == a[1..] + b;
      HitsAppend(a[1..], b, retrieve);
    } else {
      assert a + b == b;
    }
  }

  /** Hits keep query order: a query's result sits between those of the queries before and after it. */
  lemma HitsInQueryOrder(a: seq<string>, q: string, b: seq<string>, retrieve: string -> Option<string>)
    ensures Hits(a + [q] + b, retrieve)
         == Hits(a, retrieve) + (if retrieve(q).Some? then [retrieve(q).value] else []) + Hits(b, retrieve)
  {
    HitsAppend(a + [q], b, retrieve);
    HitsAppend(a, [q], retrieve);
    assert [q][1..] == [];
  }

  /** When every query finds something, the hits are the answers query by query. */
  lemma {:induction false} HitsAllFound(queries: seq<string>, retrieve: string -> Option<string>)
    requires forall k :: 0 <= k < |queries| ==> retrieve(queries[k]).Some?
    ensures |Hits(queries, retrieve)| == |queries|
    ensures forall k :: 0 <= k < |queries| ==> Hits(queries, retrieve)[k] == retrieve(queries[k]).value
    decreases |queries|
  {
    if |queries| > 0 {
      HitsAllFound(queries[1..], retrieve);
    }
  }

  /** Every query after `Utils.clean_search_query`. */
  function CleanAll(queries: seq<string>): (cleaned: seq<string>)
    ensures |cleaned| == |queries|
    ensures forall k :: 0 <= k < |queries| ==> cleaned[k] == CleanSearchQuery(queries[k])
    ensures forall k :: 0 <= k < |queries| ==> |cleaned[k]| <= |queries[k]|
  {
    seq(|queries|, k requires 0 <= k < |queries| => CleanSearchQuery(queries[k]))
  }

  /** The Searx retriever seen from `search`: a page search followed by `SearchSearx`. */
  function SearxRetriever(searxPage: string -> Option<string>): string -> Option<string> {
    q => SearchSearx(searxPage(q))
  }

  /**
   * `Searcher.search`: the Wikipedia hits for the cleaned queries, in query order, followed by
   * the Searx hits for the same queries, in query order; misses are dropped and nothing is
   * deduplicated, so there are at most two results per query.
   */
  function Search(queries: seq<string>, wikipedia: string -> Option<string>, searxPage: string -> Option<string>)
    : (results: seq<string>)
    ensures |results| <= 2 * |queries|
    ensures var cleaned := CleanAll(queries); var w := |Hits(cleaned, wikipedia)|;
      && w <= |results|
      && results[..w] == Hits(cleaned, wikipedia)
      && results[w..] == Hits(cleaned, SearxRetriever(searxPage))
    ensures forall s :: s in results <==>
      exists q :: q in CleanAll(queries) && (wikipedia(q) == Some(s) || SearchSearx(searxPage(q)) == Some(s))
  {
    var cleaned := CleanAll(queries);
    var wikipediaResults := Hits(cleaned, wikipedia);
    var searxResults := Hits(cleaned, SearxRetriever(searxPage));
    assert (wikipediaResults + searxResults)[..|wikipediaResults|] == wikipediaResults;
    wikipediaResults + searxResults
  }

  /** Two queries, one miss among the four lookups: three results. */
  lemma SearchCountsEveryHit(q1: string, q2: string, wikipedia: string -> Option<string>, searxPage: string -> Option<string>)
    requires wikipedia(CleanSearchQuery(q1)).Some? && wikipedia(CleanSearchQuery(q2)).Some?
    requires searxPage(CleanSearchQuery(q1)).Some? && searxPage(CleanSearchQuery(q2)).None?
    ensures |Search([q1, q2], wikipedia, searxPage)| == 3
  {
    var cleaned := CleanAll([q1, q2]);
    assert cleaned == [] + [CleanSearchQuery(q1)] + [CleanSearchQuery(q2)];
    HitsInQueryOrder([], CleanSearchQuery(q1), [CleanSearchQuery(q2)], wikipedia);
    HitsInQueryOrder([], CleanSearchQuery(q1), [CleanSearchQuery(q2)], SearxRetriever(searxPage));
  }

  lemma HitsOfTwo(x: string, y: string, retrieve: string -> Option<string>)
    ensures Hits([x, y], retrieve)
         == (if retrieve(x).Some? then [retrieve(x).value] else []) + (if retrieve(y).Some? then [retrieve(y).value] else [])
  {
    assert [x, y][1..] == [y];
    assert [y][1..] == [];
  }

  /** Two queries, only the second found, and only on Wikipedia: one result, the second's text. */
  lemma SearchSecondWikipediaOnly(a: string, b: string, found: string,
                                  wikipedia: string -> Option<string>, searxPage: string -> Option<string>)
    requires wikipedia(CleanSearchQuery(a)).None? && wikipedia(CleanSearchQuery(b)) == Some(found)
    requires searxPage(CleanSearchQuery(a)).None? && searxPage(CleanSearchQuery(b)).None?
    ensures Search([a, b], wikipedia, searxPage) == [found]
  {
    var cleaned := CleanAll([a, b]);
    assert cleaned == [CleanSearchQuery(a), CleanSearchQuery(b)];
    HitsOfTwo(CleanSearchQuery(a), CleanSearchQuery(b), wikipedia);
    HitsOfTwo(CleanSearchQuery(a), CleanSearchQuery(b), SearxRetriever(searxPage));
    var r := Search([a, b], wikipedia, searxPage);
    assert r[..1] == [found] && r[1..] == [];
    assert r == r[..1] + r[1..];
  }
}
