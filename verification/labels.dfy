/**
 The three votes a labeling function can cast, and their integer encoding
 (POSITIVE = 1, NEGATIVE = 0, ABSTAIN = -1) as it appears in the label matrix.
 */
module Labels {

  datatype Option<+T> = None | Some(value: T)

  /** A vote of one labeling function on one candidate. ABSTAIN is a non-vote. */
  datatype Label = Positive | Negative | Abstain

  /** The integer a vote is written as in the label matrix. */
  function ToInt(l: Label): (v: int)
    ensures -1 <= v <= 1
    ensures v == 1 <==> l == Positive
    ensures v == 0 <==> l == Negative
    ensures v == -1 <==> l == Abstain
  {
    match l
    case Positive => 1
    case Negative => 0
    case Abstain => -1
  }

  /** Reads a label-matrix cell back as a vote; anything outside {-1, 0, 1} is no vote at all. */
  function FromInt(v: int): (r: Option<Label>)
    ensures r.Some? <==> -1 <= v <= 1
  {
    if v == 1 then Some(Positive)
    else if v == 0 then Some(Negative)
    else if v == -1 then Some(Abstain)
    else None
  }

  /** Decoding an encoded vote gives the vote back. */
  lemma FromToInt(l: Label)
    ensures FromInt(ToInt(l)) == Some(l)
  {
  }

  /** Every decodable cell is the encoding of the vote it decodes to. */
  lemma ToFromInt(v: int)
    requires -1 <= v <= 1
    ensures FromInt(v).Some? && ToInt(FromInt(v).value) == v
  {
  }

  /** The encoding is one-to-one, so a matrix cell determines the vote. */
  lemma ToIntInjective(a: Label, b: Label)
    ensures ToInt(a) == ToInt(b) <==> a == b
  {
  }
}
