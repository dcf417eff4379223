/**
  Choice resolution: an utterance matches an option when, after
  lower-casing both, either one is a substring of the other; the first
  matching option in stored order is selected.
 */
module Matching {
  import opened Options
  import opened Text
  import opened Stories

  /** The bidirectional, case-insensitive substring test of the option scan. */
  predicate Matches(utterance: string, text: string)
  {
    var u := Lower(utterance);
    var t := Lower(text);
    Contains(t, u) || Contains(u, t)
  }

  /** The index of the first option, in stored order, that `utterance` matches. */
  function FirstMatch(options: seq<Choice>, utterance: string): (r: Option<nat>)
    ensures r.Some? ==> r.value < |options| && Matches(utterance, options[r.value].text)
    ensures r.Some? ==> forall j :: 0 <= j < r.value ==> !Matches(utterance, options[j].text)
    ensures r.None? <==> forall j :: 0 <= j < |options| ==> !Matches(utterance, options[j].text)
  {
    if |options| == 0 then
      None
    else if Matches(utterance, options[0].text) then
      Some(0)
    else
      match FirstMatch(options[1..], utterance)
      case None => None
      case Some(k) => Some(k + 1)
  }

  /** The option texts, verbatim and in stored order. */
  function Texts(options: seq<Choice>): seq<string>
  {
    seq(|options|, i requires 0 <= i < |options| => options[i].text)
  }

  /** An utterance equal to an option's text always resolves, to that option or an earlier one. */
  lemma ExactTextResolves(options: seq<Choice>, i: nat)
    requires i < |options|
    ensures FirstMatch(options, options[i].text).Some?
    ensures FirstMatch(options, options[i].text).value <= i
  {
  }

  /** The empty utterance is a substring of every text, so it selects the first option. */
  lemma EmptyUtteranceSelectsFirst(options: seq<Choice>)
    requires |options| > 0
    ensures FirstMatch(options, "") == Some(0)
  {
  }

  /** Resolution only sees the lower-cased utterance: case variants select the same option. */
  lemma FirstMatchIgnoresCase(options: seq<Choice>, u: string, v: string)
    requires Lower(u) == Lower(v)
    ensures FirstMatch(options, u) == FirstMatch(options, v)
  {
  }

  /** Utterances that differ only in the case of ASCII letters select the same option. */
  lemma CaseVariantsSelectAlike(options: seq<Choice>, u: string, v: string)
    requires |u| == |v|
    requires forall i :: 0 <= i < |u| ==> u[i] == v[i] || ('A' <= u[i] <= 'Z' && v[i] as int == u[i] as int + 32)
    ensures FirstMatch(options, u) == FirstMatch(options, v)
  {
    assert Lower(u) == Lower(v);
    FirstMatchIgnoresCase(options, u, v);
  }

  /** Examples of the rule: upper case matches lower case, and a longer utterance matches a shorter text. */
  lemma MatchExamples()
    ensures Matches("NORTH", "go north")
    ensures Matches("go north now", "go north")
    ensures !Matches("south", "go north")
  {
    assert Lower("NORTH") == "north";
    assert Lower("go north") == "go north";
    assert Lower("go north now") == "go north now";
    assert Lower("south") == "south";
    assert OccursAt("go north", "north", 3);
    assert OccursAt("go north now", "go north", 0);
    forall i | 0 <= i <= 3 ensures !OccursAt("go north", "south", i) {
      assert "go north"[i..i + 5][0] == "go north"[i] != 's';
    }
    assert !Contains("go north", "south");
    assert !Contains("south", "go north");
  }
}
