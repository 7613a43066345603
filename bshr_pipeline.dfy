/**
 * `BSHRPipeline`: brainstorm queries, search, condense, judge relevance, hypothesise, condense
 * again, run the tournament and respond. Every language-model and retriever call is an
 * abstract function of its inputs, collected in `Oracles`.
 */
module BshrPipeline {
  import opened Wrappers
  import opened Strings
  import Brainstormer
  import Searcher
  import InformationProcessor
  import HypothesisTournament
  import opened TextUtils

  /**
   * The external calls of one run, each as a deterministic function of what the code sends:
   * the model's reply text for each prompt, and each retriever's answer for a cleaned query.
   */
  datatype Oracles = Oracles(
    brainstorm: (string, int) -> string,            // reply to "Brainstorm {n} search queries ... {topic}"
    wikipedia: string -> Option<string>,           // `search_wikipedia`: intro text of the best article, or None
    searxPage: string -> Option<string>,           // text of the first Searx hit's page, or None
    condense: (string, string) -> Option<string>,  // `condense(content, topic)`: None when the reply has no content
    relevance: (string, string, string) -> string, // yes/no reply for (content, search query, topic)
    hypothesize: (string, string) -> string,       // `generate_hypothesis(search_results, topic)`
    refine: (string, string, string) -> string,    // refine-and-merge reply for (hypothesis a, hypothesis b, topic)
    respond: (string, string) -> string)           // `generate_response(context, final_hypothesis)`

  /** `run` asks the brainstormer for this many queries. */
  const QueryCount := 4

  const MockModel := "mistralai/mistral-7b-instruct"
  const OpenAiModel := "gpt-3.5-turbo"

  /** Python's `model or default`: None and the empty string are falsy. */
  function ModelOr(model: Option<string>, default: string): (chosen: string)
    ensures chosen == default || model == Some(chosen)
    ensures model.Some? && model.value != "" ==> chosen == model.value
    ensures model.None? || model.value == "" ==> chosen == default
  {
    if model.None? || model.value == "" then default else model.value
  }

  /**
   * `compete_hypotheses`: the model refines and merges the two, and the result is condensed.
   * The competitors reach the model only as text, so a failed condensation competes exactly
   * like the hypothesis whose text is `None`.
   */
  function Compete(o: Oracles, topic: string): (compete: (Option<string>, Option<string>) -> Option<string>)
    ensures forall a, b :: compete(a, b) == compete(Some(ShowOptional(a)), Some(ShowOptional(b)))
  {
    (a: Option<string>, b: Option<string>) => o.condense(o.refine(ShowOptional(a), ShowOptional(b), topic), topic)
  }

  /** The lists `run` builds before the tournament. */
  datatype Stages = Stages(
    searchQueries: seq<string>,
    searchResults: seq<string>,
    condensedSearchResults: seq<Option<string>>,
    relevance: seq<bool>,
    hypotheses: seq<string>,
    condensedHypotheses: seq<Option<string>>)

  /**
   * The list comprehensions of `run`, with `zip` pairing condensed results and raw queries by
   * position. Stage lengths: 1 to 4 queries, at most two results per query, one condensed
   * result per result, one judgment per pair that `zip` forms, one hypothesis and one
   * condensed hypothesis per judgment, and none exactly when the search finds nothing.
   */
  function RunStages(topic: string, o: Oracles): (s: Stages)
    ensures 1 <= |s.searchQueries| <= QueryCount
    ensures |s.searchResults| <= 2 * |s.searchQueries|
    ensures |s.condensedSearchResults| == |s.searchResults|
    ensures |s.relevance| == Min(|s.searchResults|, |s.searchQueries|)
    ensures |s.hypotheses| == |s.relevance| && |s.condensedHypotheses| == |s.hypotheses|
    ensures |s.condensedHypotheses| <= QueryCount
    ensures |s.condensedHypotheses| == 0 <==> |s.searchResults| == 0
  {
    var searchQueries := Brainstormer.GenerateQueries(o.brainstorm(topic, QueryCount), QueryCount);
    var searchResults := Searcher.Search(searchQueries, o.wikipedia, o.searxPage);
    var condensed := seq(|searchResults|, k requires 0 <= k < |searchResults| => o.condense(searchResults[k], topic));
    var pairs := Min(|condensed|, |searchQueries|);
    var relevance := seq(pairs, k requires 0 <= k < pairs =>
      InformationProcessor.RelevancyCheck(o.relevance(ShowOptional(condensed[k]), searchQueries[k], topic)));
    var hypotheses := seq(|relevance|, k requires 0 <= k < |relevance| => o.hypothesize(ShowBool(relevance[k]), topic));
    var condensedHypotheses := seq(|hypotheses|, k requires 0 <= k < |hypotheses| => o.condense(hypotheses[k], topic));
    Stages(searchQueries, searchResults, condensed, relevance, hypotheses, condensedHypotheses)
  }

  /**
   * When every query has a Wikipedia hit, each judgment pairs a query with the condensed
   * Wikipedia text found for that query, and no Searx result is judged at all: `zip` stops
   * at the last query, before the Searx half of the results.
   */
  lemma JudgmentsReadWikipediaOnly(topic: string, o: Oracles)
    requires forall q :: q in RunStages(topic, o).searchQueries ==> o.wikipedia(CleanSearchQuery(q)).Some?
    ensures var s := RunStages(topic, o);
      && |s.relevance| == |s.searchQueries|
      && forall k :: 0 <= k < |s.relevance| ==>
           s.relevance[k] == InformationProcessor.RelevancyCheck(o.relevance(
             ShowOptional(o.condense(o.wikipedia(CleanSearchQuery(s.searchQueries[k])).value, topic)),
             s.searchQueries[k], topic))
  {
    var s := RunStages(topic, o);
    var cleaned := Searcher.CleanAll(s.searchQueries);
    assert forall k :: 0 <= k < |cleaned| ==> o.wikipedia(cleaned[k]).Some? by {
      forall k | 0 <= k < |cleaned| ensures o.wikipedia(cleaned[k]).Some? {
        assert s.searchQueries[k] in s.searchQueries;
      }
    }
    Searcher.HitsAllFound(cleaned, o.wikipedia);
    var w := Searcher.Hits(cleaned, o.wikipedia);
    assert s.searchResults[..|w|] == w;
    forall k | 0 <= k < |s.relevance|
      ensures s.searchResults[k] == o.wikipedia(CleanSearchQuery(s.searchQueries[k])).value
    {
      assert s.searchResults[k] == s.searchResults[..|w|][k];
    }
  }

  /**
   * Judgments pair results and queries by position, but results are listed Wikipedia first:
   * when the first query finds nothing on Wikipedia and the second does, the first query is
   * judged against the text found for the second.
   */
  lemma JudgmentPairsQueryWithAnotherQuerysText(topic: string, o: Oracles, a: string, b: string, found: string)
    requires RunStages(topic, o).searchQueries == [a, b]
    requires o.wikipedia(CleanSearchQuery(a)).None? && o.wikipedia(CleanSearchQuery(b)) == Some(found)
    requires o.searxPage(CleanSearchQuery(a)).None? && o.searxPage(CleanSearchQuery(b)).None?
    ensures RunStages(topic, o).searchResults == [found]
    ensures RunStages(topic, o).relevance
         == [InformationProcessor.RelevancyCheck(o.relevance(ShowOptional(o.condense(found, topic)), a, topic))]
  {
    var s := RunStages(topic, o);
    Searcher.SearchSecondWikipediaOnly(a, b, found, o.wikipedia, o.searxPage);
    assert s.searchResults == Searcher.Search(s.searchQueries, o.wikipedia, o.searxPage);
  }

  /**
   * Hypotheses are drafted from the judgment's boolean alone, so `generate_hypothesis` sees at
   * most two distinct inputs in a run: each draft is the reply for `True` or for `False`.
   */
  lemma HypothesesFromTwoInputs(topic: string, o: Oracles)
    ensures forall h :: h in RunStages(topic, o).hypotheses ==>
      h == o.hypothesize("True", topic) || h == o.hypothesize("False", topic)
  {
    var s := RunStages(topic, o);
    forall k | 0 <= k < |s.hypotheses|
      ensures s.hypotheses[k] == o.hypothesize("True", topic) || s.hypotheses[k] == o.hypothesize("False", topic)
    {
      assert s.hypotheses[k] == o.hypothesize(ShowBool(s.relevance[k]), topic);
    }
  }

  class BSHRPipeline {
    var model: string
    var headers: map<string, string>
    var searxUrl: string

    /**
     * `BSHRPipeline.__init__`: with the mock (OpenRouter) endpoint the model defaults to
     * Mistral and two routing headers are sent; otherwise it defaults to GPT-3.5 and no
     * headers are sent.
     */
    constructor (model: Option<string>, searxUrl: string, mockOpenAi: bool := true)
      ensures mockOpenAi ==> this.model == ModelOr(model, MockModel)
      ensures mockOpenAi ==> headers == map["HTTP-Referer" := "http://localhost:3000", "X-Title" := "BSHRPipeline"]
      ensures !mockOpenAi ==> this.model == ModelOr(model, OpenAiModel) && headers == map[]
      ensures this.searxUrl == searxUrl
    {
      if mockOpenAi {
        this.model := ModelOr(model, MockModel);
        headers := map["HTTP-Referer" := "http://localhost:3000", "X-Title" := "BSHRPipeline"];
      } else {
        this.model := ModelOr(model, OpenAiModel);
        headers := map[];
      }
      this.searxUrl := searxUrl;
    }

    /**
     * `BSHRPipeline.run`: the responder's answer to "Question: <topic>" with the tournament
     * winner as answer cues; the run fails with `IndexError`, before the responder is
     * asked, exactly when the search finds nothing.
     */
    method Run(topic: string, o: Oracles) returns (answer: Result<string>)
      ensures var s := RunStages(topic, o);
        && (answer.Err? <==> |s.searchResults| == 0)
        && (answer.Err? ==> answer.error == IndexError)
        && (answer.Ok? ==> answer.value == o.respond("Question: " + topic,
              ShowOptional(HypothesisTournament.Tournament(s.condensedHypotheses, Compete(o, topic)))))
    {
      var stages := RunStages(topic, o);
      var finalHypothesis, _, _ := HypothesisTournament.RunTournament(stages.condensedHypotheses, Compete(o, topic));
      match finalHypothesis
      case Err(e) =>
        answer := Err(e);
      case Ok(h) =>
        answer := Ok(o.respond("Question: " + topic, ShowOptional(h)));
    }
  }
}
