/** `Utils.clean_search_query`: normalises a brainstormed query before it is sent to a retriever. */
module TextUtils {
  import opened Strings

  predicate IsQuote(c: char) { c == '"' }

  /** `p` is matched in full by the regular expression `\d+\.\s*`. */
  ghost predicate IsOrdinalPrefix(p: string) {
    exists d :: 1 <= d < |p| && p[d] == '.'
      && (forall i :: 0 <= i < d ==> IsDigit(p[i]))
      && (forall i :: d < i < |p| ==> IsSpace(p[i]))
  }

  /** The length of the text that `re.sub(r"^\d+\.\s*", "", q)` removes (zero when nothing matches). */
  function OrdinalPrefixLength(q: string): (k: nat)
    ensures k <= |q|
    ensures k > 0 ==> IsDigit(q[0])
  {
    var d := LeadingRun(q, IsDigit);
    if 1 <= d < |q| && q[d] == '.' then d + 1 + LeadingRun(q[d + 1..], IsSpace) else 0
  }

  /**
   * The removed prefix is the longest prefix of `q` that the anchored pattern matches, and
   * nothing is removed when no prefix matches: greedy `\d+` and `\s*` anchored by `^`.
   */
  lemma OrdinalPrefixIsLongestMatch(q: string)
    ensures OrdinalPrefixLength(q) <= |q|
    ensures OrdinalPrefixLength(q) == 0 || IsOrdinalPrefix(q[..OrdinalPrefixLength(q)])
    ensures forall j :: OrdinalPrefixLength(q) < j <= |q| ==> !IsOrdinalPrefix(q[..j])
  {
    var d := LeadingRun(q, IsDigit);
    var k := OrdinalPrefixLength(q);
    if k > 0 {
      var p := q[..k];
      assert p[d] == '.';
      assert forall i :: 0 <= i < d ==> IsDigit(p[i]);
      assert forall i :: d < i < |p| ==> IsSpace(p[i]) by {
        forall i | d < i < |p| ensures IsSpace(p[i]) {
          assert p[i] == q[d + 1..][i - d - 1];
        }
      }
    }
    forall j | k < j <= |q| ensures !IsOrdinalPrefix(q[..j]) {
      var p := q[..j];
      forall e | 1 <= e < |p| && p[e] == '.' && (forall i :: 0 <= i < e ==> IsDigit(p[i]))
        ensures exists i :: e < i < |p| && !IsSpace(p[i])
      {
        LeadingRunAt(q, IsDigit, e);
        assert q[d + 1..][k - d - 1] == q[k];
        assert e < k < |p| && !IsSpace(p[k]);
      }
    }
  }

  /** Python's `s.strip('"')`. */
  function StripQuotes(s: string): (r: string)
    ensures exists i, j ::
              && 0 <= i <= j <= |s| && r == s[i..j]
              && (forall k :: 0 <= k < i ==> IsQuote(s[k]))
              && (forall k :: j <= k < |s| ==> IsQuote(s[k]))
    ensures |r| > 0 ==> !IsQuote(r[0]) && !IsQuote(r[|r| - 1])
  {
    var i := LeadingRun(s, IsQuote);
    var j := |s| - TrailingRun(s[i..], IsQuote);
    assert forall k :: j <= k < |s| ==> s[k] == s[i..][k - i];
    s[i..j]
  }

  /** `Utils.clean_search_query`: drop one leading ordinal such as `1. `, then every surrounding quote. */
  function CleanSearchQuery(query: string): (r: string)
    ensures exists i, j :: 0 <= i <= j <= |query| && r == query[i..j]
    ensures |r| <= |query|
    ensures |r| > 0 ==> r[0] != '"' && r[|r| - 1] != '"'
  {
    var k := OrdinalPrefixLength(query);
    SliceOfSuffix(query, k, StripQuotes(query[k..]));
    StripQuotes(query[k..])
  }

  lemma SliceOfSuffix(s: string, k: nat, r: string)
    requires k <= |s|
    requires exists i, j :: 0 <= i <= j <= |s| - k && r == s[k..][i..j]
    ensures exists i, j :: 0 <= i <= j <= |s| && r == s[i..j]
  {
    var i, j :| 0 <= i <= j <= |s| - k && r == s[k..][i..j];
    assert r == s[k + i..k + j];
  }
}

/** Query normalisation worked through on typical brainstormed lines: ordinals, quotes and both. */
module TextUtilsExamples {
  import opened Strings
  import opened TextUtils

  lemma CleanSearchQueryUnfold(q: string)
    ensures CleanSearchQuery(q) == StripQuotes(q[OrdinalPrefixLength(q)..])
  {
  }

  /** An ordinal of `d` digits followed by `sp` whitespace characters. */
  lemma OrdinalPrefixOf(q: string, d: nat, sp: nat)
    requires 1 <= d && d + 1 + sp <= |q| && q[d] == '.'
    requires forall i :: 0 <= i < d ==> IsDigit(q[i])
    requires forall i :: d < i <= d + sp ==> IsSpace(q[i])
    requires d + 1 + sp < |q| ==> !IsSpace(q[d + 1 + sp])
    ensures OrdinalPrefixLength(q) == d + 1 + sp
  {
    LeadingRunAt(q, IsDigit, d);
    var rest := q[d + 1..];
    assert forall i :: 0 <= i < sp ==> rest[i] == q[d + 1 + i];
    LeadingRunAt(rest, IsSpace, sp);
  }

  lemma NoOrdinalPrefix(q: string)
    requires |q| == 0 || !IsDigit(q[0])
    ensures OrdinalPrefixLength(q) == 0
  {
    LeadingRunAt(q, IsDigit, 0);
  }

  lemma StripQuotesUnquoted(s: string)
    requires |s| > 0 && !IsQuote(s[0]) && !IsQuote(s[|s| - 1])
    ensures StripQuotes(s) == s
  {
    LeadingRunAt(s, IsQuote, 0);
    assert s[0..] == s;
    TrailingRunAt(s, IsQuote, 0);
  }

  lemma StripQuotesOnce(s: string)
    requires |s| >= 3 && IsQuote(s[0]) && IsQuote(s[|s| - 1])
    requires !IsQuote(s[1]) && !IsQuote(s[|s| - 2])
    ensures StripQuotes(s) == s[1..|s| - 1]
  {
    LeadingRunAt(s, IsQuote, 1);
    var t := s[1..];
    TrailingRunAt(t, IsQuote, 1);
  }

  lemma CleanSearchQueryOf(q: string, k: nat, r: string)
    requires k <= |q| && OrdinalPrefixLength(q) == k && StripQuotes(q[k..]) == r
    ensures CleanSearchQuery(q) == r
  {
  }

  lemma MachineLearningPrefix()
    ensures OrdinalPrefixLength("1. \"machine learning\"") == 3
  {
    OrdinalPrefixOf("1. \"machine learning\"", 1, 1);
  }

  lemma MachineLearningQuotes()
    ensures StripQuotes("1. \"machine learning\""[3..]) == "machine learning"
  {
    var s := "\"machine learning\"";
    assert "1. \"machine learning\""[3..] == s;
    StripQuotesOnce(s);
    assert s[1..|s| - 1] == "machine learning";
  }

  lemma ExampleOrdinalAndQuotes()
    ensures CleanSearchQuery("1. \"machine learning\"") == "machine learning"
  {
    MachineLearningPrefix();
    MachineLearningQuotes();
    CleanSearchQueryOf("1. \"machine learning\"", 3, "machine learning");
  }

  lemma ExampleNoPrefix()
    ensures CleanSearchQuery("no prefix query") == "no prefix query"
  {
    var q := "no prefix query";
    CleanSearchQueryUnfold(q);
    NoOrdinalPrefix(q);
    StripQuotesUnquoted(q);
  }

  /** Only one ordinal is removed: the pattern is anchored at the start. */
  lemma ExampleOneOrdinalOnly()
    ensures CleanSearchQuery("1. 2. x") == "2. x"
  {
    var q := "1. 2. x";
    CleanSearchQueryUnfold(q);
    OrdinalPrefixOf(q, 1, 1);
    StripQuotesUnquoted(q[3..]);
  }

  /** Several digits, and no whitespace after the period. */
  lemma ExampleNoSpaceAfterPeriod()
    ensures CleanSearchQuery("12.x") == "x"
  {
    var q := "12.x";
    CleanSearchQueryUnfold(q);
    OrdinalPrefixOf(q, 2, 0);
    StripQuotesUnquoted(q[3..]);
  }

  /** Digits that are not followed by a period stay. */
  lemma ExampleDigitsWithoutPeriod()
    ensures CleanSearchQuery("42 answers") == "42 answers"
  {
    var q := "42 answers";
    CleanSearchQueryUnfold(q);
    LeadingRunAt(q, IsDigit, 2);
    StripQuotesUnquoted(q);
  }

  /**
   * The ordinal is removed before the quotes, so an ordinal inside quotes survives one
   * cleaning and is removed by a second: cleaning is not idempotent.
   */
  lemma QuotedOrdinalOnce()
    ensures CleanSearchQuery("\"1. x\"") == "1. x"
  {
    var q := "\"1. x\"";
    NoOrdinalPrefix(q);
    assert q[0..] == q;
    StripQuotesOnce(q);
    assert q[1..|q| - 1] == "1. x";
    CleanSearchQueryOf(q, 0, "1. x");
  }

  lemma ExampleNotIdempotent()
    ensures CleanSearchQuery("\"1. x\"") == "1. x"
    ensures CleanSearchQuery(CleanSearchQuery("\"1. x\"")) == "x"
  {
    QuotedOrdinalOnce();
    OrdinalTwiceCleaned();
  }

  lemma OrdinalTwiceCleaned()
    ensures CleanSearchQuery("1. x") == "x"
  {
    var c := "1. x";
    OrdinalPrefixOf(c, 1, 1);
    StripQuotesUnquoted(c[3..]);
    CleanSearchQueryOf(c, 3, "x");
  }
}
