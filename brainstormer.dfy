/** `Brainstormer.generate_queries`: turns the model's reply into the list of search queries. */
module Brainstormer {
  import opened Strings

  /**
   * The queries for a reply of the model: the reply's lines (pieces between `"\n"`), in order,
   * cut to the first `n` (Python's `[:n]`, so a negative `n` drops lines from the end).
   * Nothing is padded: a reply with fewer lines yields fewer queries. `n` defaults to 5.
   */
  function GenerateQueries(reply: string, n: int := 5): (queries: seq<string>)
    ensures queries <= Split(reply, '\n')
    ensures n >= 0 ==> |queries| == Min(n, multiset(reply)['\n'] + 1)
    ensures n < 0 ==> |queries| == Max(0, multiset(reply)['\n'] + 1 + n)
    ensures forall k :: 0 <= k < |queries| ==> '\n' !in queries[k]
    ensures n >= 1 ==> |queries| >= 1
    ensures n > multiset(reply)['\n'] ==> Join(queries, "\n") == reply
  {
    SplitCount(reply, '\n');
    JoinSplit(reply, '\n');
    var lines := Split(reply, '\n');
    assert n >= |lines| ==> SliceTo(lines, n) == lines;
    SliceTo(lines, n)
  }
}
