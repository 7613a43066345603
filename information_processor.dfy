/** `InformationProcessor.relevancy_check`: how the yes/no model's reply is read. */
module InformationProcessor {
  import opened Strings

  /** `t` occurs in `s` at index `i` when ASCII letter case in `s` is ignored (`t` given in lower case). */
  predicate OccursIgnoringCaseAt(s: string, t: string, i: int) {
    0 <= i <= |s| - |t| && forall k :: 0 <= k < |t| ==> LowerChar(s[i + k]) == t[k]
  }

  lemma OccursInLower(s: string, t: string)
    ensures forall i :: OccursAt(Lower(s), t, i) <==> OccursIgnoringCaseAt(s, t, i)
  {
    forall i | 0 <= i <= |s| - |t|
      ensures OccursAt(Lower(s), t, i) <==> OccursIgnoringCaseAt(s, t, i)
    {
      var w := Lower(s)[i..i + |t|];
      assert forall k :: 0 <= k < |t| ==> w[k] == LowerChar(s[i + k]);
    }
  }

  /**
   * `relevancy_check` on the model's reply: relevant exactly when the lower-cased reply contains
   * `yes` or `relevant` anywhere (so a reply saying `irrelevant` counts as relevant too).
   */
  function RelevancyCheck(reply: string): (relevant: bool)
    ensures relevant <==>
      (exists i :: OccursIgnoringCaseAt(reply, "yes", i)) || (exists i :: OccursIgnoringCaseAt(reply, "relevant", i))
  {
    var r := Lower(reply);
    ContainsIffOccurs(r, "yes");
    ContainsIffOccurs(r, "relevant");
    OccursInLower(reply, "yes");
    OccursInLower(reply, "relevant");
    Contains(r, "yes") || Contains(r, "relevant")
  }
}

/** Typical replies of the yes/no model, read by `RelevancyCheck`. */
module InformationProcessorExamples {
  import opened Strings
  import opened InformationProcessor

  /** A letter of `t` that is missing from `s` in either case rules out every match. */
  lemma MissingLetter(s: string, t: string, k: nat)
    requires k < |t| && 'a' <= t[k] <= 'z'
    requires t[k] !in s && (t[k] as int - 32) as char !in s
    ensures forall i :: !OccursIgnoringCaseAt(s, t, i)
  {
    forall j | 0 <= j < |s| ensures LowerChar(s[j]) != t[k] {
      assert s[j] in s;
    }
  }

  lemma ExampleYes()
    ensures RelevancyCheck("Yes, it is relevant.")
  {
    assert OccursIgnoringCaseAt("Yes, it is relevant.", "yes", 0);
  }

  lemma ExampleNo()
    ensures !RelevancyCheck("No.")
  {
    MissingLetter("No.", "yes", 0);
    MissingLetter("No.", "relevant", 0);
  }

  /** Fail-closed: a reply that is neither yes nor relevant is read as irrelevant. */
  lemma ExampleUndetermined()
    ensures !RelevancyCheck("I cannot determine.")
  {
    MissingLetter("I cannot determine.", "yes", 0);
    MissingLetter("I cannot determine.", "relevant", 4);
  }

  /** Substring matching also accepts a reply that says the content is irrelevant. */
  lemma ExampleIrrelevant()
    ensures RelevancyCheck("That is irrelevant.")
  {
    assert OccursIgnoringCaseAt("That is irrelevant.", "relevant", 10);
  }
}
