/**
 The registered list of labeling functions, in the order they are handed to the
 applier, and the row of integer votes that list produces for one candidate
 (one row of the label matrix).
 */
module LabelRows {
  import opened Labels
  import opened Candidates
  import opened LabelingFunctions

  /** The five labeling functions, by name. */
  datatype Lf = HusbandWife | HusbandWifeLeftWindow | Married | FamilialRelationship | OtherRelationship

  /** The registration order, which is the column order of the label matrix. */
  const Lfs: seq<Lf> := [HusbandWife, HusbandWifeLeftWindow, Married, FamilialRelationship, OtherRelationship]

  /** Runs one labeling function on a candidate. */
  function Apply(lf: Lf, x: Candidate): Label
  {
    match lf
    case HusbandWife => LfHusbandWife(x)
    case HusbandWifeLeftWindow => LfHusbandWifeLeftWindow(x)
    case Married => LfMarried(x)
    case FamilialRelationship => LfFamilialRelationship(x)
    case OtherRelationship => LfOtherRelationship(x)
  }

  /** The one non-abstaining vote a labeling function is designed to cast. */
  function Polarity(lf: Lf): Label
  {
    match lf
    case HusbandWife | HusbandWifeLeftWindow | Married => Positive
    case FamilialRelationship | OtherRelationship => Negative
  }

  /** Every labeling function either abstains or casts its own polarity. */
  lemma ApplyHasPolarity(lf: Lf, x: Candidate)
    ensures Apply(lf, x) == Abstain || Apply(lf, x) == Polarity(lf)
  {
  }

  /** The votes of the registered functions on one candidate, as matrix integers. */
  function LabelRow(x: Candidate): (row: seq<int>)
    ensures |row| == |Lfs| == 5
    // each cell is ABSTAIN (-1) or the polarity of its column's function
    ensures forall j :: 0 <= j < |row| ==> row[j] == -1 || row[j] == ToInt(Polarity(Lfs[j]))
    // each cell decodes back to the vote its function cast
    ensures forall j :: 0 <= j < |row| ==> FromInt(row[j]) == Some(Apply(Lfs[j], x))
  {
    seq(|Lfs|, j requires 0 <= j < |Lfs| => ToInt(Apply(Lfs[j], x)))
  }

  /** With a single token between the mentions, the between-token columns of a
      row never hold both a POSITIVE and a NEGATIVE vote. */
  lemma {:induction false} SingleTokenRowHasNoConflict(x: Candidate)
    requires |x.betweenTokens| == 1
    ensures !(LabelRow(x)[0] == 1 && (LabelRow(x)[3] == 0 || LabelRow(x)[4] == 0))
    ensures !(LabelRow(x)[2] == 1 && (LabelRow(x)[3] == 0 || LabelRow(x)[4] == 0))
  {
    SingleTokenNoConflict(x);
    SingleTokenMarriedNoConflict(x);
  }
}
