/**
 * `HypothesisTournament.run_tournament`: a single-elimination reduction of the hypotheses.
 * Each round merges the pairs (0, 1), (2, 3), ... with `compete`; an odd last
 * hypothesis advances unchanged (a bye). Rounds repeat until one hypothesis remains.
 */
module HypothesisTournament {
  import opened Wrappers

  /** The next round: the pairwise winners in pair order, then the bye, if any. */
  function NextRound<H>(hypotheses: seq<H>, compete: (H, H) -> H): (next: seq<H>)
    ensures |next| == (|hypotheses| + 1) / 2
    ensures forall k :: 0 <= k < |hypotheses| / 2 ==> next[k] == compete(hypotheses[2 * k], hypotheses[2 * k + 1])
    ensures |hypotheses| % 2 == 1 ==> next[|next| - 1] == hypotheses[|hypotheses| - 1]
    decreases |hypotheses|
  {
    if |hypotheses| <= 1 then hypotheses
    else
      var rest := NextRound(hypotheses[2..], compete);
      assert forall k :: 1 <= k < |hypotheses| / 2 ==>
        rest[k - 1] == compete(hypotheses[2 * k], hypotheses[2 * k + 1]);
      [compete(hypotheses[0], hypotheses[1])] + rest
  }

  /** The winner: rounds are played until a single hypothesis remains. */
  function Tournament<H>(hypotheses: seq<H>, compete: (H, H) -> H): (winner: H)
    requires |hypotheses| >= 1
    ensures |hypotheses| == 1 ==> winner == hypotheses[0]
    ensures |hypotheses| == 2 ==> winner == compete(hypotheses[0], hypotheses[1])
    decreases |hypotheses|
  {
    if |hypotheses| == 1 then hypotheses[0] else Tournament(NextRound(hypotheses, compete), compete)
  }

  /** How many rounds a tournament of `n` hypotheses plays. */
  function RoundCount(n: nat): nat
    decreases n
  {
    if n <= 1 then 0 else 1 + RoundCount((n + 1) / 2)
  }

  function Pow2(k: nat): nat {
    if k == 0 then 1 else 2 * Pow2(k - 1)
  }

  /**
   * The number of rounds is the ceiling of log2 n: the least `r` with `n <= 2^r`.
   * Byes never cause a round beyond what halving requires.
   */
  lemma {:induction false} RoundCountIsCeilLog2(n: nat)
    requires n >= 1
    ensures n <= Pow2(RoundCount(n))
    ensures RoundCount(n) > 0 ==> Pow2(RoundCount(n) - 1) < n
    decreases n
  {
    if n > 1 {
      var m := (n + 1) / 2;
      RoundCountIsCeilLog2(m);
      if RoundCount(m) > 0 {
        assert Pow2(RoundCount(m)) == 2 * Pow2(RoundCount(m) - 1);
      }
    }
  }

  /**
   * One round of `run_tournament`: the `for` loop over `range(0, len(hypotheses), 2)` that
   * builds `next_round_hypotheses`. The ghost result counts the calls of `compete`.
   */
  method PlayRound<H>(current: seq<H>, compete: (H, H) -> H) returns (next: seq<H>, ghost competitions: nat)
    ensures next == NextRound(current, compete)
    ensures competitions == |current| / 2
  {
    next, competitions := [], 0;
    var i := 0;
    while i < |current|
      invariant i % 2 == 0 && i <= |current| + 1
      invariant |next| == i / 2
      invariant forall k :: 0 <= k < |next| ==>
        next[k] == if 2 * k + 1 < |current| then compete(current[2 * k], current[2 * k + 1]) else current[2 * k]
      invariant competitions == (if i <= |current| then i / 2 else |current| / 2)
      decreases |current| - i
    {
      if i + 1 < |current| {
        next := next + [compete(current[i], current[i + 1])];
        competitions := competitions + 1;
      } else {
        next := next + [current[i]];
      }
      i := i + 2;
    }
  }

  /**
   * `run_tournament`. Returns `IndexError` for an empty list (the source's `hypotheses[0]`),
   * otherwise the tournament winner. The ghost results count the rounds played and the
   * calls of `compete`.
   */
  method RunTournament<H>(hypotheses: seq<H>, compete: (H, H) -> H)
    returns (winner: Result<H>, ghost rounds: nat, ghost competitions: nat)
    ensures |hypotheses| == 0 ==> winner == Err(IndexError)
    ensures |hypotheses| >= 1 ==> winner == Ok(Tournament(hypotheses, compete))
    ensures |hypotheses| == 1 ==> winner == Ok(hypotheses[0]) && competitions == 0
    ensures |hypotheses| >= 1 ==> competitions == |hypotheses| - 1
    ensures rounds == RoundCount(|hypotheses|)
  {
    var current := hypotheses;
    rounds, competitions := 0, 0;
    while |current| > 1
      invariant |current| == 0 <==> |hypotheses| == 0
      invariant |current| >= 1 ==> Tournament(current, compete) == Tournament(hypotheses, compete)
      invariant |hypotheses| >= 1 ==> competitions + |current| == |hypotheses|
      invariant rounds + RoundCount(|current|) == RoundCount(|hypotheses|)
      decreases |current|
    {
      var next, played := PlayRound(current, compete);
      current := next;
      rounds, competitions := rounds + 1, competitions + played;
    }
    if |current| == 0 {
      winner := Err(IndexError);
    } else {
      winner := Ok(current[0]);
    }
  }

  /** A bracket records who met whom: the free instance of `compete`. */
  datatype Bracket<H> = Entry(hypothesis: H) | Match(left: Bracket<H>, right: Bracket<H>)

  function MatchOf<H>(left: Bracket<H>, right: Bracket<H>): Bracket<H> {
    Match(left, right)
  }

  /** The entries of a bracket, left to right. */
  function Fringe<H>(b: Bracket<H>): seq<H> {
    match b
    case Entry(h) => [h]
    case Match(l, r) => Fringe(l) + Fringe(r)
  }

  function Fringes<H>(bs: seq<Bracket<H>>): seq<H>
    decreases |bs|
  {
    if |bs| == 0 then [] else Fringe(bs[0]) + Fringes(bs[1..])
  }

  function Entries<H>(hypotheses: seq<H>): (bs: seq<Bracket<H>>)
    ensures |bs| == |hypotheses|
  {
    seq(|hypotheses|, k requires 0 <= k < |hypotheses| => Entry(hypotheses[k]))
  }

  /** A round neither drops nor duplicates nor reorders an entry: pairs merge, a bye passes through. */
  lemma {:induction false} NextRoundKeepsEntries<H>(bs: seq<Bracket<H>>)
    ensures Fringes(NextRound(bs, MatchOf)) == Fringes(bs)
    decreases |bs|
  {
    if |bs| > 1 {
      var rest := NextRound(bs[2..], MatchOf);
      NextRoundKeepsEntries(bs[2..]);
      var next := [MatchOf(bs[0], bs[1])] + rest;
      assert NextRound(bs, MatchOf) == next;
      assert next[1..] == rest;
      assert bs[1..][1..] == bs[2..];
    }
  }

  lemma {:induction false} TournamentKeepsEntries<H>(bs: seq<Bracket<H>>)
    requires |bs| >= 1
    ensures Fringe(Tournament(bs, MatchOf)) == Fringes(bs)
    decreases |bs|
  {
    if |bs| > 1 {
      NextRoundKeepsEntries(bs);
      TournamentKeepsEntries(NextRound(bs, MatchOf));
    } else {
      assert bs[1..] == [];
    }
  }

  lemma {:induction false} FringesOfEntries<H>(hypotheses: seq<H>)
    ensures Fringes(Entries(hypotheses)) == hypotheses
    decreases |hypotheses|
  {
    if |hypotheses| > 0 {
      FringesOfEntries(hypotheses[1..]);
      assert Entries(hypotheses)[1..] == Entries(hypotheses[1..]);
      assert [hypotheses[0]] + hypotheses[1..] == hypotheses;
    }
  }

  /**
   * The winner is a merge of every input hypothesis, each exactly once and in input order:
   * no hypothesis is lost except by merging, and none is merged with itself.
   */
  lemma TournamentMergesEveryHypothesisOnce<H>(hypotheses: seq<H>)
    requires |hypotheses| >= 1
    ensures Fringe(Tournament(Entries(hypotheses), MatchOf)) == hypotheses
  {
    TournamentKeepsEntries(Entries(hypotheses));
    FringesOfEntries(hypotheses);
  }

  /** Three hypotheses: the first two meet, the third has a bye and meets their winner. */
  lemma ThreeHypotheses<H>(a: H, b: H, c: H, compete: (H, H) -> H)
    ensures NextRound([a, b, c], compete) == [compete(a, b), c]
    ensures Tournament([a, b, c], compete) == compete(compete(a, b), c)
  {
    var second := NextRound([a, b, c], compete);
    assert second == [compete(a, b), c];
    var final := NextRound(second, compete);
    assert final == [compete(compete(a, b), c)];
    assert Tournament([a, b, c], compete) == Tournament(second, compete) == Tournament(final, compete);
  }

  /** Five hypotheses play three rounds (5, 3, 2, 1). */
  lemma FiveHypothesesRounds()
    ensures RoundCount(5) == 3
  {
  }

  /** A bracket played out with a given `compete`. */
  function Eval<H>(b: Bracket<H>, compete: (H, H) -> H): H {
    match b
    case Entry(h) => h
    case Match(l, r) => compete(Eval(l, compete), Eval(r, compete))
  }

  function EvalAll<H>(bs: seq<Bracket<H>>, compete: (H, H) -> H): (hs: seq<H>)
    ensures |hs| == |bs|
  {
    seq(|bs|, k requires 0 <= k < |bs| => Eval(bs[k], compete))
  }

  /** Playing a round and then the brackets gives what playing the round on their outcomes gives. */
  lemma NextRoundOfEval<H>(bs: seq<Bracket<H>>, compete: (H, H) -> H)
    ensures NextRound(EvalAll(bs, compete), compete) == EvalAll(NextRound(bs, MatchOf), compete)
  {
    var hs := EvalAll(bs, compete);
    var lhs, rhs := NextRound(hs, compete), EvalAll(NextRound(bs, MatchOf), compete);
    assert |lhs| == |rhs|;
    forall k | 0 <= k < |lhs| ensures lhs[k] == rhs[k] {
      if k < |bs| / 2 {
        assert NextRound(bs, MatchOf)[k] == Match(bs[2 * k], bs[2 * k + 1]);
      } else {
        assert NextRound(bs, MatchOf)[k] == bs[|bs| - 1];
      }
    }
  }

  lemma {:induction false} TournamentOfEval<H>(bs: seq<Bracket<H>>, compete: (H, H) -> H)
    requires |bs| >= 1
    ensures Tournament(EvalAll(bs, compete), compete) == Eval(Tournament(bs, MatchOf), compete)
    decreases |bs|
  {
    if |bs| > 1 {
      NextRoundOfEval(bs, compete);
      TournamentOfEval(NextRound(bs, MatchOf), compete);
    }
  }

  /**
   * Every `compete` is the bracket's evaluation: the winner for any `compete` is the free
   * winner's bracket played out with it, so TournamentMergesEveryHypothesisOnce carries over.
   */
  lemma TournamentIsBracketEval<H>(hypotheses: seq<H>, compete: (H, H) -> H)
    requires |hypotheses| >= 1
    ensures Tournament(hypotheses, compete) == Eval(Tournament(Entries(hypotheses), MatchOf), compete)
  {
    assert EvalAll(Entries(hypotheses), compete) == hypotheses;
    TournamentOfEval(Entries(hypotheses), compete);
  }
}
