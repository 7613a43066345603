# BSHR pipeline: a Dafny model of its deterministic core

The BSHR pipeline (Brainstorm, Search, Hypothesise, Refine) answers a topic in stages.
A language model brainstorms search queries. Wikipedia and a Searx instance each look up every
query. The model condenses what was found, judges its relevance and drafts hypotheses. A
single-elimination tournament merges the hypotheses pairwise into one winner. The model then
turns the winner into the final answer.

Every language-model and retriever call is modelled as an abstract, deterministic function.
They are the fields of `BshrPipeline.Oracles`. What the model covers is the code between those
calls:

- `HypothesisTournament`: `run_tournament` as an imperative method. It has the outer
  `while` loop (`RunTournament`) and the inner loop over `range(0, len, 2)` (`PlayRound`). Both
  are proved against the recursive round function `NextRound` and the winner function
  `Tournament`. The proofs cover termination, round length `⌈len/2⌉`, exactly `N − 1` calls of
  `compete`, `⌈log₂ N⌉` rounds, pair order and bye placement. An empty list fails with
  `IndexError`. Instantiating `compete` with a bracket constructor shows that the winner merges
  every input exactly once, in input order.
- `TextUtils`: `Utils.clean_search_query`. The anchored regular expression `^\d+\.\s*` is
  proved to remove the longest matching prefix, and nothing when no prefix matches. Then every
  leading and trailing `"` is stripped.
- `Brainstormer`: the split-on-newline and `[:n]` step of `generate_queries`.
- `Searcher`: the word limit of `search_searx`, the two list comprehensions of `search` and
  their concatenation.
- `InformationProcessor`: how `relevancy_check` reads the reply of the yes/no model.
- `BshrPipeline`: the constructor's choice of model and headers, and the list data flow of `run`
  through `zip`, the comprehensions, the tournament and the responder.
- `Strings`: the Python built-ins the code relies on. These are `str.split(sep)`, `str.split()`,
  `sep.join`, `str.lower`, `t in s`, `xs[:n]`, and the way an f-string shows `None` and booleans.

The f-string detail matters in two places. A condensation that fails gives `None`, and the
prompts built from it then contain the text `None`. `generate_hypothesis` is called with the
relevance boolean, so the model it calls sees `True` or `False`, never content.

Some behaviour of the code is not what its names and comments suggest. The model follows the code:
- `generate_queries` is asked for `n` queries and returns at most `n`, not exactly `n`.
- Nothing stops an empty hypothesis list from reaching the tournament, where `hypotheses[0]`
  raises `IndexError` (`BshrPipeline.BSHRPipeline.Run` returns `Err(IndexError)` exactly when
  the search finds nothing).
- `zip` truncates the relevance list to the number of queries, so the tournament never sees
  more than four hypotheses: `run_tournament` is never called with more than four.
- `zip(condensed_search_results, search_queries)` pairs the k-th result with the k-th query
  (BSHR/bshr_pipeline.py:44-47). But `search` lists all Wikipedia hits before all Searx hits,
  dropping misses (BSHR/components.py:126-140). So a judgment can pair a query with text found for
  another query (`JudgmentPairsQueryWithAnotherQuerysText`). When every query has a Wikipedia hit,
  no Searx result is judged at all (`JudgmentsReadWikipediaOnly`).
- Relevance judgments are computed, but only their boolean value reaches hypothesis
  generation. So `generate_hypothesis` sees at most two distinct inputs in one run
  (`HypothesesFromTwoInputs`).

## Model

| member | source | states |
|---|---|---|
| `Strings.Split` | BSHR/components.py:36 | `split("\n")` gives at least one piece and no piece contains the separator |
| `Strings.JoinSplit` | BSHR/components.py:36 | joining the pieces with the separator gives back the reply |
| `Strings.SplitJoin` | BSHR/components.py:36 | splitting a join of separator-free pieces gives back the pieces: the two are inverse |
| `Strings.SplitCount` | BSHR/components.py:36 | the number of lines is one more than the number of newlines |
| `Strings.SliceTo` | BSHR/components.py:38 | `xs[:n]` is a prefix of `xs` of length `min(n, len)`, or `max(0, len + n)` for negative `n` |
| `Strings.Words` | BSHR/components.py:70 | `str.split()` yields non-empty words without whitespace |
| `Strings.WordsAroundSpace` | BSHR/components.py:70 | a whitespace character separates the words before it from those after it: `(a + c + b).split() == a.split() + b.split()` |
| `Strings.WordsOfWord` | BSHR/components.py:70 | a single word splits to itself; with `WordsAroundSpace` and `WordsOfBlank` this fixes `str.split()` on every string |
| `Strings.WordsOfBlank` | BSHR/components.py:70 | a string of whitespace only has no words |
| `Strings.WordsOfJoin` | BSHR/components.py:70-72 | splitting a single-space join of words gives back the words |
| `Strings.JoinIsSingleSpaced` | BSHR/components.py:70-72 | a single-space join of words has no whitespace at either end and only lone spaces inside |
| `Strings.Join` | BSHR/components.py:70-72 | `sep.join(xs)` starts with the first piece and is as long as the pieces plus one separator between each neighbouring pair |
| `Strings.Lower` | BSHR/components.py:156 | `str.lower()` keeps the length, turns each capital into its small letter, leaves every other character and leaves no capital |
| `Strings.Contains` | BSHR/components.py:157 | `t in s` needs `t` to be no longer than `s` and holds when `t` is a prefix or a suffix of `s` |
| `Strings.ShowOptional` | BSHR/components.py:154 | an f-string shows a string as itself and `None` as the text `None`, so the two coincide only for the text `None` |
| `Strings.ShowBool` | BSHR/components.py:177 | an f-string shows `True` as `True` and `False` as `False` |
| `Strings.ContainsIffOccurs` | BSHR/components.py:157 | `t in s` holds exactly when `t` occurs in `s` at some index |
| `TextUtils.OrdinalPrefixLength` | utils/text_utils.py:6 | the `re.sub` removes at most the whole query, and something only when the query starts with a digit |
| `TextUtils.OrdinalPrefixIsLongestMatch` | utils/text_utils.py:6 | the removed prefix is the longest prefix matching `\d+\.\s*`, and nothing is removed when none matches |
| `TextUtils.StripQuotes` | utils/text_utils.py:8 | `strip('"')` returns a slice with only quotes cut from each end, and the result neither starts nor ends with a quote |
| `TextUtils.CleanSearchQuery` | utils/text_utils.py:4-9 | the cleaned query is a contiguous slice of the query, never longer, and neither starts nor ends with `"` |
| `TextUtilsExamples.ExampleOrdinalAndQuotes` | utils/text_utils.py:4-9 | `1. "machine learning"` cleans to `machine learning` |
| `TextUtilsExamples.ExampleNoPrefix` | utils/text_utils.py:4-9 | `no prefix query` is unchanged |
| `TextUtilsExamples.ExampleOneOrdinalOnly` | utils/text_utils.py:6 | `1. 2. x` cleans to `2. x`: the pattern is anchored, so one ordinal goes |
| `TextUtilsExamples.ExampleNoSpaceAfterPeriod` | utils/text_utils.py:6 | `12.x` cleans to `x` |
| `TextUtilsExamples.ExampleDigitsWithoutPeriod` | utils/text_utils.py:6 | `42 answers` is unchanged: digits without a period stay |
| `TextUtilsExamples.ExampleNotIdempotent` | utils/text_utils.py:6-8 | `"1. x"` cleans to `1. x` and cleaning again gives `x`: the ordinal goes before the quotes, so cleaning is not idempotent |
| `Brainstormer.GenerateQueries` | BSHR/components.py:28-38 | with `n` defaulting to 5, the queries are the first `min(n, #lines)` lines of the reply in order, none contains a newline, there is at least one for `n >= 1`, and with enough room they join back to the reply |
| `Searcher.LimitWords` | BSHR/components.py:68-72 | the extract is single-spaced and its words are the first at most 400 words of the page text; it is empty exactly when the page has no words |
| `Searcher.LimitWordsIdempotent` | BSHR/components.py:70-72 | limiting an extract again changes nothing |
| `Searcher.SearchSearx` | BSHR/components.py:57-76 | no search result gives None; otherwise the extract is single-spaced and its words are the first at most 400 words of the page |
| `Searcher.Hits` | BSHR/components.py:126-137 | every kept item is a retriever's answer for some query, every answer found is kept, and there is at most one per query |
| `Searcher.HitsAppend` | BSHR/components.py:126-137 | the hits for a concatenation of query lists are the concatenated hits |
| `Searcher.HitsInQueryOrder` | BSHR/components.py:126-137 | a query's hit sits between the hits of the queries before and after it; a miss contributes nothing |
| `Searcher.HitsAllFound` | BSHR/components.py:126-130 | when every query finds something, the k-th hit is the k-th query's answer |
| `Searcher.HitsOfTwo` | BSHR/components.py:126-130 | two queries give the first one's answer, if any, followed by the second one's |
| `Searcher.CleanAll` | BSHR/components.py:121-124 | entry k is query k after `clean_search_query`, one per query, none longer than the original |
| `Searcher.Search` | BSHR/components.py:120-142 | all Wikipedia hits in query order, then all Searx hits in query order; exactly the found texts; at most two per query |
| `Searcher.SearchCountsEveryHit` | BSHR/components.py:120-142 | two queries with one miss among the four lookups give three results |
| `Searcher.SearchSecondWikipediaOnly` | BSHR/components.py:120-142 | two queries of which only the second is found, and only on Wikipedia, give that one text |
| `InformationProcessor.OccursInLower` | BSHR/components.py:156-157 | a word occurs in the lower-cased reply exactly when it occurs in the reply with letter case ignored |
| `InformationProcessor.RelevancyCheck` | BSHR/components.py:151-157 | relevant exactly when `yes` or `relevant` occurs in the reply, case ignored |
| `InformationProcessorExamples.ExampleYes` | BSHR/components.py:156-157 | `Yes, it is relevant.` is relevant |
| `InformationProcessorExamples.ExampleNo` | BSHR/components.py:156-157 | `No.` is not relevant |
| `InformationProcessorExamples.ExampleUndetermined` | BSHR/components.py:156-157 | `I cannot determine.` is not relevant: anything else fails closed |
| `InformationProcessorExamples.ExampleIrrelevant` | BSHR/components.py:156-157 | `That is irrelevant.` counts as relevant, because `relevant` is a substring |
| `HypothesisTournament.NextRound` | BSHR/components.py:219-227 | a round has `⌈len/2⌉` entries: `compete(h[2k], h[2k+1])` in pair order, then an odd last hypothesis unchanged at the end |
| `HypothesisTournament.PlayRound` | BSHR/components.py:219-227 | the inner loop builds exactly the next round and calls `compete` `⌊len/2⌋` times |
| `HypothesisTournament.RunTournament` | BSHR/components.py:204-230 | an empty list raises `IndexError`; otherwise the winner of the repeated rounds, after `N − 1` competitions and `RoundCount(N)` rounds; one hypothesis wins unchanged with none |
| `HypothesisTournament.Tournament` | BSHR/components.py:218-228 | a single hypothesis wins unchanged and two hypotheses give `compete(h0, h1)` |
| `HypothesisTournament.RoundCountIsCeilLog2` | BSHR/components.py:218-227 | the number of rounds is `⌈log₂ N⌉`, the least `r` with `N <= 2^r` |
| `HypothesisTournament.NextRoundKeepsEntries` | BSHR/components.py:220-227 | a round neither drops, duplicates nor reorders a hypothesis: pairs merge and a bye passes through |
| `HypothesisTournament.TournamentKeepsEntries` | BSHR/components.py:218-228 | the winning bracket holds every entry of the first round, in order |
| `HypothesisTournament.TournamentMergesEveryHypothesisOnce` | BSHR/components.py:218-228 | the winner merges every input hypothesis exactly once, in input order |
| `HypothesisTournament.NextRoundOfEval` | BSHR/components.py:220-227 | playing a round of brackets and then evaluating them equals playing the round on their values |
| `HypothesisTournament.TournamentOfEval` | BSHR/components.py:218-228 | the winner of the evaluated brackets is the evaluated winning bracket |
| `HypothesisTournament.TournamentIsBracketEval` | BSHR/components.py:218-228 | the winner for any `compete` is the free winner's bracket played out with that `compete`, so every hypothesis is merged once, in order, for every `compete` |
| `HypothesisTournament.ThreeHypotheses` | BSHR/components.py:218-228 | `[a, b, c]` plays `[compete(a, b), c]` and then `compete(compete(a, b), c)` |
| `HypothesisTournament.FiveHypothesesRounds` | BSHR/components.py:218-227 | five hypotheses play three rounds |
| `BshrPipeline.ModelOr` | BSHR/bshr_pipeline.py:13 | Python's `model or default`: the given model unless it is None or empty, and then the default |
| `BshrPipeline.Compete` | BSHR/components.py:191-202 | the competitors reach the model only as text: a failed condensation competes exactly like the hypothesis `None` |
| `BshrPipeline.BSHRPipeline.constructor` | BSHR/bshr_pipeline.py:9-22 | mock endpoint: model defaults to Mistral and the headers are `HTTP-Referer` and `X-Title`; otherwise GPT-3.5 and no headers |
| `BshrPipeline.RunStages` | BSHR/bshr_pipeline.py:34-57 | 1 to 4 queries, at most two results per query, one condensed result per result, `min(results, queries)` judgments, one hypothesis and one condensed hypothesis per judgment, at most four hypotheses, and none exactly when the search found nothing |
| `BshrPipeline.JudgmentsReadWikipediaOnly` | BSHR/bshr_pipeline.py:37-47 | when every query has a Wikipedia hit, judgment k reads the condensed Wikipedia text of query k, and no Searx result is judged |
| `BshrPipeline.JudgmentPairsQueryWithAnotherQuerysText` | BSHR/bshr_pipeline.py:37-47 | when only the second of two queries is found, on Wikipedia, the only judgment pairs the first query with the second query's text |
| `BshrPipeline.HypothesesFromTwoInputs` | BSHR/bshr_pipeline.py:49-52 | every drafted hypothesis is the model's reply for `True` or for `False`: `generate_hypothesis` sees at most two distinct inputs |
| `BshrPipeline.BSHRPipeline.Run` | BSHR/bshr_pipeline.py:31-79 | fails with `IndexError` exactly when the search finds nothing; otherwise the responder's reply to `Question: <topic>` with the tournament winner as cues |

## Left out

- The language-model client `openai_response` and its exponential-backoff retry on rate limits
  (BSHR/components.py:14-21). These are network calls and timing. Each call is an abstract
  function in `Oracles`, and no call fails.
- The prompt texts and the `<number>` substitution (BSHR/components.py:31, utils/prompt_templates.py).
  Each oracle receives the values the prompt is built from, not the prompt.
- The model and headers chosen by the constructor reach only the language-model calls. Those
  calls are abstract, so `Oracles` stands for the calls made with this pipeline's configuration.
- The process-global `openai.api_key` and `openai.api_base` writes in the constructor
  (BSHR/bshr_pipeline.py:10, 12). The constructor takes neither argument.
- Exceptions. The code catches none, so a failed request or a missing JSON key aborts the real
  run. Every oracle is a total function here, so the model has no such failure.
- The HTTP requests, JSON field navigation and BeautifulSoup text extraction inside
  `search_wikipedia` and `search_searx`. `Oracles.wikipedia` gives the article text or None.
  `Oracles.searxPage` gives the first hit's page text or None, and `Searcher.SearchSearx`
  applies the word limit to it. Missing JSON keys and request exceptions are not modelled.
- Searcher.Hits: each comprehension calls its retriever twice for a query that has a hit.
  Retrievers are deterministic here, so the second call returns the same value as the first. A
  second call that returned None would leave a None in the list; that case is not modelled.
- BshrPipeline.HypothesesFromTwoInputs: the oracles are functions, so equal prompts get equal
  replies. The real model is called without a fixed temperature (BSHR/components.py:21), so a
  real run may draft different hypotheses from the same input; only the inputs are bounded.
- HypothesisTournament.RunTournament: the round and competition counts are ghost results. The
  source does not count them: it only calls `compete` that often.
- The empty-reply failure of `condense` is the Option result of `Oracles.condense`. Other
  language-model calls are assumed to return text.
- Logging with loguru, and the `print` summaries of `run` (BSHR/bshr_pipeline.py:69-78).
- The Streamlit front end (app.py, st_components/bshr.py).
- Unicode: `\d`, `\s`, `str.split()` and `str.lower()` are modelled on ASCII only. Whitespace is
  space, `\t` to `\r` and `\x1c` to `\x1f`.
- Concurrency: the code is sequential, and so is the model.
