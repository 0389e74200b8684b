/**
 The five heuristic labeling functions. Each looks a candidate's tokens up in a
 word list and casts one vote: the spouse rules can only say POSITIVE, the
 family and other-relationship rules can only say NEGATIVE, and all of them
 ABSTAIN when their words are absent.
 */
module LabelingFunctions {
  import opened Labels
  import opened WordSets
  import opened Candidates

  /** Python's `set(tokens)`. */
  function ToSet(tokens: seq<string>): (r: set<string>)
    ensures forall t :: t in r <==> t in tokens
  {
    set t | t in tokens
  }

  /** Reference meaning of "a word of the list occurs among the tokens":
      some position holds a listed word. */
  predicate Mentions(words: set<string>, tokens: seq<string>)
  {
    exists i :: 0 <= i < |tokens| && tokens[i] in words
  }

  /** `len(words.intersection(set(tokens))) > 0` is exactly "some token is a listed word". */
  lemma IntersectsIffMentions(words: set<string>, tokens: seq<string>)
    ensures |words * ToSet(tokens)| > 0 <==> Mentions(words, tokens)
  {
    if Mentions(words, tokens) {
      var i :| 0 <= i < |tokens| && tokens[i] in words;
      assert tokens[i] in words * ToSet(tokens);
    }
    if |words * ToSet(tokens)| > 0 {
      var t :| t in words * ToSet(tokens);
      var i :| 0 <= i < |tokens| && tokens[i] == t;
    }
  }

  /** POSITIVE when the word "married" occurs between the mentions, else ABSTAIN. */
  function LfMarried(x: Candidate): (r: Label)
    ensures r != Negative
    ensures r == Positive <==> exists i :: 0 <= i < |x.betweenTokens| && x.betweenTokens[i] == "married"
  {
    if "married" in x.betweenTokens then Positive else Abstain
  }

  /** POSITIVE when a spouse word occurs between the mentions, else ABSTAIN. */
  function LfHusbandWife(x: Candidate): (r: Label)
    ensures r != Negative
    ensures r == Positive <==> Mentions(Spouses, x.betweenTokens)
  {
    IntersectsIffMentions(Spouses, x.betweenTokens);
    if |Spouses * ToSet(x.betweenTokens)| > 0 then Positive else Abstain
  }

  /** NEGATIVE when a family word (in-law forms included) occurs between the mentions, else ABSTAIN. */
  function LfFamilialRelationship(x: Candidate): (r: Label)
    ensures r != Positive
    ensures r == Negative <==> Mentions(Family, x.betweenTokens)
  {
    IntersectsIffMentions(Family, x.betweenTokens);
    if |Family * ToSet(x.betweenTokens)| > 0 then Negative else Abstain
  }

  /** NEGATIVE when an other-relationship word occurs between the mentions, else ABSTAIN. */
  function LfOtherRelationship(x: Candidate): (r: Label)
    ensures r != Positive
    ensures r == Negative <==> Mentions(Other, x.betweenTokens)
  {
    IntersectsIffMentions(Other, x.betweenTokens);
    if |Other * ToSet(x.betweenTokens)| > 0 then Negative else Abstain
  }

  /** POSITIVE when a spouse word occurs in the left context of person 1 or,
      failing that, of person 2; else ABSTAIN. */
  function LfHusbandWifeLeftWindow(x: Candidate): (r: Label)
    ensures r != Negative
    ensures r == Positive <==>
              Mentions(Spouses, x.person1LeftTokens) || Mentions(Spouses, x.person2LeftTokens)
  {
    IntersectsIffMentions(Spouses, x.person1LeftTokens);
    IntersectsIffMentions(Spouses, x.person2LeftTokens);
    if |Spouses * ToSet(x.person1LeftTokens)| > 0 then Positive
    else if |Spouses * ToSet(x.person2LeftTokens)| > 0 then Positive
    else Abstain
  }

  /** Whether a word list is met depends only on the set of tokens. */
  lemma MentionsSetOnly(words: set<string>, a: seq<string>, b: seq<string>)
    requires ToSet(a) <= ToSet(b)
    ensures Mentions(words, a) ==> Mentions(words, b)
  {
    if Mentions(words, a) {
      var i :| 0 <= i < |a| && a[i] in words;
      assert a[i] in ToSet(b);
      var j :| 0 <= j < |b| && b[j] == a[i];
    }
  }

  /** The between-token rules see only the set of between tokens: reordering
      or repeating tokens, or changing any other field, cannot change a vote. */
  lemma {:induction false} BetweenVotesDependOnTokenSetOnly(x: Candidate, y: Candidate)
    requires ToSet(x.betweenTokens) == ToSet(y.betweenTokens)
    ensures LfMarried(x) == LfMarried(y)
    ensures LfHusbandWife(x) == LfHusbandWife(y)
    ensures LfFamilialRelationship(x) == LfFamilialRelationship(y)
    ensures LfOtherRelationship(x) == LfOtherRelationship(y)
  {
    assert "married" in x.betweenTokens <==> "married" in ToSet(x.betweenTokens);
    assert "married" in y.betweenTokens <==> "married" in ToSet(y.betweenTokens);
    MentionsSetOnly(Spouses, x.betweenTokens, y.betweenTokens);
    MentionsSetOnly(Spouses, y.betweenTokens, x.betweenTokens);
    MentionsSetOnly(Family, x.betweenTokens, y.betweenTokens);
    MentionsSetOnly(Family, y.betweenTokens, x.betweenTokens);
    MentionsSetOnly(Other, x.betweenTokens, y.betweenTokens);
    MentionsSetOnly(Other, y.betweenTokens, x.betweenTokens);
  }

  /** More between tokens can only turn an ABSTAIN of a spouse rule into
      POSITIVE, and an ABSTAIN of a family or other rule into NEGATIVE; a cast
      vote is never withdrawn. */
  lemma {:induction false} BetweenVotesMonotone(x: Candidate, y: Candidate)
    requires ToSet(x.betweenTokens) <= ToSet(y.betweenTokens)
    ensures LfMarried(x) == Positive ==> LfMarried(y) == Positive
    ensures LfHusbandWife(x) == Positive ==> LfHusbandWife(y) == Positive
    ensures LfFamilialRelationship(x) == Negative ==> LfFamilialRelationship(y) == Negative
    ensures LfOtherRelationship(x) == Negative ==> LfOtherRelationship(y) == Negative
  {
    assert "married" in x.betweenTokens ==> "married" in ToSet(y.betweenTokens);
    MentionsSetOnly(Spouses, x.betweenTokens, y.betweenTokens);
    MentionsSetOnly(Family, x.betweenTokens, y.betweenTokens);
    MentionsSetOnly(Other, x.betweenTokens, y.betweenTokens);
  }

  /** Appending tokens between the mentions is one way of adding tokens. */
  lemma {:induction false} AppendingTokensKeepsVotes(x: Candidate, extra: seq<string>)
    ensures var y := x.(betweenTokens := x.betweenTokens + extra);
            && (LfHusbandWife(x) == Positive ==> LfHusbandWife(y) == Positive)
            && (LfFamilialRelationship(x) == Negative ==> LfFamilialRelationship(y) == Negative)
            && (LfOtherRelationship(x) == Negative ==> LfOtherRelationship(y) == Negative)
  {
    var y := x.(betweenTokens := x.betweenTokens + extra);
    assert ToSet(x.betweenTokens) <= ToSet(y.betweenTokens) by {
      forall t | t in ToSet(x.betweenTokens) ensures t in ToSet(y.betweenTokens) {
        var i :| 0 <= i < |x.betweenTokens| && x.betweenTokens[i] == t;
        assert y.betweenTokens[i] == t;
      }
    }
    BetweenVotesMonotone(x, y);
  }

  /** The left-window rule does not care which person is which. */
  lemma LeftWindowSymmetric(x: Candidate)
    ensures LfHusbandWifeLeftWindow(x) ==
            LfHusbandWifeLeftWindow(x.(person1LeftTokens := x.person2LeftTokens,
                                       person2LeftTokens := x.person1LeftTokens))
  {
  }

  /** The left-window rule is the between-token spouse rule applied to both
      left contexts taken together. */
  lemma {:induction false} LeftWindowIsHusbandWifeOnBothContexts(x: Candidate)
    ensures LfHusbandWifeLeftWindow(x) ==
            LfHusbandWife(x.(betweenTokens := x.person1LeftTokens + x.person2LeftTokens))
  {
    var l1 := x.person1LeftTokens;
    var l2 := x.person2LeftTokens;
    var both := l1 + l2;
    if Mentions(Spouses, l1) {
      var i :| 0 <= i < |l1| && l1[i] in Spouses;
      assert both[i] == l1[i];
    } else if Mentions(Spouses, l2) {
      var i :| 0 <= i < |l2| && l2[i] in Spouses;
      assert both[|l1| + i] == l2[i];
    }
  }

  /** Because the word lists are disjoint, a spouse rule and a family or other
      rule can only disagree when at least two different words lie between
      the mentions: no single token makes both fire. */
  lemma {:induction false} ConflictNeedsTwoWords(x: Candidate)
    ensures LfHusbandWife(x) == Positive &&
            (LfFamilialRelationship(x) == Negative || LfOtherRelationship(x) == Negative) ==>
              exists i, j :: 0 <= i < |x.betweenTokens| && 0 <= j < |x.betweenTokens| &&
                             x.betweenTokens[i] != x.betweenTokens[j]
  {
    var bt := x.betweenTokens;
    if Mentions(Spouses, bt) && (Mentions(Family, bt) || Mentions(Other, bt)) {
      var i :| 0 <= i < |bt| && bt[i] in Spouses;
      SpouseWordIsNothingElse(bt[i]);
      var j :| 0 <= j < |bt| && (bt[j] in Family || bt[j] in Other);
      assert bt[i] != bt[j];
    }
  }

  lemma SpouseWordIsNothingElse(t: string)
    ensures t in Spouses ==> t !in Family && t !in Other
  {
    WordSetsDisjoint();
  }

  /** A single between token never draws both a POSITIVE vote from the spouse
      rule and a NEGATIVE vote. */
  lemma {:induction false} SingleTokenNoConflict(x: Candidate)
    requires |x.betweenTokens| == 1
    ensures !(LfHusbandWife(x) == Positive && LfFamilialRelationship(x) == Negative)
    ensures !(LfHusbandWife(x) == Positive && LfOtherRelationship(x) == Negative)
  {
    var bt := x.betweenTokens;
    var t := bt[0];
    SpouseWordIsNothingElse(t);
    if LfHusbandWife(x) == Positive {
      assert t in Spouses;
      forall i | 0 <= i < |bt|
        ensures bt[i] !in Family && bt[i] !in Other
      {
        assert i == 0;
      }
    }
  }

  /** Likewise for the "married" rule: one between token never makes it vote
      POSITIVE while a family or other rule votes NEGATIVE. */
  lemma {:induction false} SingleTokenMarriedNoConflict(x: Candidate)
    requires |x.betweenTokens| == 1
    ensures !(LfMarried(x) == Positive && LfFamilialRelationship(x) == Negative)
    ensures !(LfMarried(x) == Positive && LfOtherRelationship(x) == Negative)
  {
    var bt := x.betweenTokens;
    MarriedInNoList();
    if LfMarried(x) == Positive {
      assert bt[0] == "married";
      forall i | 0 <= i < |bt|
        ensures bt[i] !in Family && bt[i] !in Other
      {
        assert i == 0;
      }
    }
  }
}
