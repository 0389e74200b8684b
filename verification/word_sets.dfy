/**
 The three word lists the labeling functions look tokens up in: words that
 name a spouse, words that name a relative (each also with its "-in-law"
 form), and words that name some other personal or work relationship.
 */
module WordSets {

  const InLawSuffix: string := "-in-law"

  /** Words naming a spouse. */
  const Spouses: set<string> := {"spouse", "wife", "husband", "ex-wife", "ex-husband"}

  /** The fifteen relatives the family list starts from. */
  const FamilyBase: set<string> := {
    "father", "mother", "sister", "brother", "son", "daughter",
    "grandfather", "grandmother", "uncle", "aunt", "cousin",
    "papa", "baba", "mama", "mom"
  }

  /** Each word of `words` with "-in-law" appended. */
  function InLaw(words: set<string>): (r: set<string>)
    ensures forall f :: f in words ==> f + InLawSuffix in r
  {
    set f | f in words :: f + InLawSuffix
  }

  /** The relatives, plus the in-law form of every one of them. */
  const Family: set<string> := FamilyBase + InLaw(FamilyBase)

  /** Words naming a relationship that is neither marriage nor family. */
  const Other: set<string> := {
    "boyfriend", "girlfriend", "boss", "employee",
    "secretary", "co-worker", "supervisor", "mentor",
    "leader"
  }

  /** Appending the suffix loses nothing: different words get different in-law forms. */
  lemma SuffixInjective(a: string, b: string)
    requires a + InLawSuffix == b + InLawSuffix
    ensures a == b
  {
    assert a == (a + InLawSuffix)[..|a|];
    assert b == (b + InLawSuffix)[..|b|];
  }

  /** The in-law set has exactly one element per word it is built from. */
  lemma {:induction false} InLawCardinality(words: set<string>)
    ensures |InLaw(words)| == |words|
    decreases |words|
  {
    if words != {} {
      var x :| x in words;
      var rest := words - {x};
      InLawCardinality(rest);
      assert InLaw(words) == InLaw(rest) + {x + InLawSuffix};
      assert x + InLawSuffix !in InLaw(rest) by {
        if x + InLawSuffix in InLaw(rest) {
          var y :| y in rest && y + InLawSuffix == x + InLawSuffix;
          SuffixInjective(y, x);
        }
      }
    }
  }

  /** Every in-law word ends in 'w', whatever it was built from. */
  lemma InLawEndsInW(words: set<string>, t: string)
    requires t in InLaw(words)
    ensures |t| >= |InLawSuffix| && t[|t| - 1] == 'w'
  {
    var f :| f in words && t == f + InLawSuffix;
    assert t[|t| - 1] == InLawSuffix[|InLawSuffix| - 1];
  }

  /** No base relative ends in 'w'. */
  lemma FamilyBaseLastChar()
    ensures forall f :: f in FamilyBase ==> |f| > 0 && f[|f| - 1] != 'w'
  {
  }

  /** Membership in the family list: a base relative, or a base relative followed by "-in-law". */
  lemma FamilyMembership(t: string)
    ensures t in Family <==>
              t in FamilyBase || exists f :: f in FamilyBase && t == f + InLawSuffix
  {
  }

  /** No in-law word is itself a base relative. */
  lemma InLawNotBase()
    ensures FamilyBase * InLaw(FamilyBase) == {}
  {
    FamilyBaseLastChar();
    forall t | t in InLaw(FamilyBase)
      ensures t !in FamilyBase
    {
      InLawEndsInW(FamilyBase, t);
    }
  }

  /** The family list holds exactly thirty words. */
  lemma FamilySize()
    ensures |FamilyBase| == 15
    ensures |Family| == 30
  {
    BaseSize();
    InLawCardinality(FamilyBase);
    InLawNotBase();
    DisjointUnionSize(FamilyBase, InLaw(FamilyBase));
  }

  lemma BaseSize()
    ensures |FamilyBase| == 15
  {
  }

  lemma DisjointUnionSize(a: set<string>, b: set<string>)
    requires a * b == {}
    ensures |a + b| == |a| + |b|
  {
    assert |a + b| + |a * b| == |a| + |b|;
  }

  /** No spouse word and no other-relationship word is an in-law word. */
  lemma InLawAvoidsOthers()
    ensures Spouses * InLaw(FamilyBase) == {}
    ensures Other * InLaw(FamilyBase) == {}
  {
    forall t | t in InLaw(FamilyBase)
      ensures t !in Spouses && t !in Other
    {
      InLawEndsInW(FamilyBase, t);
    }
  }

  lemma SpousesNotBase()
    ensures Spouses * FamilyBase == {}
  {
    forall t | t in Spouses ensures t !in FamilyBase {
    }
  }

  lemma OtherNotBase()
    ensures Other * FamilyBase == {}
  {
    forall t | t in Other ensures t !in FamilyBase {
    }
  }

  lemma SpousesNotOther()
    ensures Spouses * Other == {}
  {
    forall t | t in Spouses ensures t !in Other {
    }
  }

  /** The three lists share no word. */
  lemma WordSetsDisjoint()
    ensures Spouses * Family == {}
    ensures Spouses * Other == {}
    ensures Family * Other == {}
  {
    InLawAvoidsOthers();
    SpousesNotBase();
    OtherNotBase();
    SpousesNotOther();
  }

  /** "married", the word the first labeling function looks for, is in none of the lists. */
  lemma MarriedInNoList()
    ensures "married" !in Spouses && "married" !in Family && "married" !in Other
  {
    if "married" in InLaw(FamilyBase) {
      InLawEndsInW(FamilyBase, "married");
    }
  }
}
