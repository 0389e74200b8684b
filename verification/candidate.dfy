/**
 A candidate: one sentence with two person mentions, and the preprocessor that
 attaches the text found strictly between the two mentions.
 */
module Candidates {
  import opened Text

  /** The word positions a mention covers: `start` is its first token and
      `end` its last one (both inclusive). */
  datatype Span = Span(start: int, end: int)

  /** One row of the data set. `tokens` and the two spans come from the data
      loader; `betweenTokens` and the two left-context lists are produced by
      collaborators outside this model and are taken as given; `textBetween`
      is the field the text-between preprocessor writes. */
  datatype Candidate = Candidate(
    tokens: seq<string>,
    person1WordIdx: Span,
    person2WordIdx: Span,
    betweenTokens: seq<string>,
    person1LeftTokens: seq<string>,
    person2LeftTokens: seq<string>,
    textBetween: string)

  /** First token position after person 1. */
  function BetweenStart(c: Candidate): int
  {
    c.person1WordIdx.end + 1
  }

  /** First token position of person 2. */
  function BetweenEnd(c: Candidate): int
  {
    c.person2WordIdx.start
  }

  /** True when no token of `ts` contains a space. */
  predicate SpaceFree(ts: seq<string>)
  {
    forall k :: 0 <= k < |ts| ==> Space !in ts[k]
  }

  /** The text-between preprocessor: joins the tokens from one past the end of
      person 1 up to (not including) the start of person 2 with single spaces
      and stores the result in `textBetween`. Slicing follows Python, so
      out-of-range and crossed bounds give an empty slice, not an error. */
  function GetTextBetween(c: Candidate): (r: Candidate)
    // no other field changes
    ensures r.(textBetween := c.textBetween) == c
    // mentions that touch, overlap or are out of order leave nothing between them,
    // and so does a person 1 that ends at or past the last token
    ensures 0 <= BetweenStart(c) && 0 <= BetweenEnd(c) &&
            (BetweenStart(c) >= BetweenEnd(c) || BetweenStart(c) >= |c.tokens|) ==>
              r.textBetween == ""
    // in range, the stored text is the space-join of the tokens between the mentions ...
    ensures 0 <= BetweenStart(c) < BetweenEnd(c) <= |c.tokens| ==>
              r.textBetween == Join(c.tokens[BetweenStart(c)..BetweenEnd(c)])
    // ... and an end past the sentence is clamped to its last token
    ensures 0 <= BetweenStart(c) <= |c.tokens| < BetweenEnd(c) ==>
              r.textBetween == Join(c.tokens[BetweenStart(c)..])
    // when those tokens are space-free, the stored text splits back into exactly them
    ensures 0 <= BetweenStart(c) < BetweenEnd(c) <= |c.tokens| &&
            SpaceFree(c.tokens[BetweenStart(c)..BetweenEnd(c)]) ==>
              Split(r.textBetween) == c.tokens[BetweenStart(c)..BetweenEnd(c)]
    ensures 0 <= BetweenStart(c) < |c.tokens| < BetweenEnd(c) &&
            SpaceFree(c.tokens[BetweenStart(c)..]) ==>
              Split(r.textBetween) == c.tokens[BetweenStart(c)..]
    // in range, it is as long as those tokens plus one space between each neighbouring pair
    ensures 0 <= BetweenStart(c) < BetweenEnd(c) <= |c.tokens| ==>
              |r.textBetween| ==
                TotalLength(c.tokens[BetweenStart(c)..BetweenEnd(c)])
                + (BetweenEnd(c) - BetweenStart(c)) - 1
  {
    var start := BetweenStart(c);
    var end := BetweenEnd(c);
    var between := PySlice(c.tokens, start, end);
    JoinedSliceSplitsBack(c.tokens, start, end);
    c.(textBetween := Join(between))
  }

  /** With non-negative bounds, the joined Python slice of a token list is the
      join of the clamped sub-sequence, and splitting it gives that
      sub-sequence back whenever it is non-empty and space-free. */
  lemma JoinedSliceSplitsBack(tokens: seq<string>, start: int, end: int)
    ensures 0 <= start && 0 <= end && (start >= end || start >= |tokens|) ==>
              Join(PySlice(tokens, start, end)) == ""
    ensures 0 <= start < end <= |tokens| ==>
              PySlice(tokens, start, end) == tokens[start..end]
    ensures 0 <= start <= |tokens| < end ==>
              PySlice(tokens, start, end) == tokens[start..]
    ensures 0 <= start < end <= |tokens| && SpaceFree(tokens[start..end]) ==>
              Split(Join(PySlice(tokens, start, end))) == tokens[start..end]
    ensures 0 <= start < |tokens| < end && SpaceFree(tokens[start..]) ==>
              Split(Join(PySlice(tokens, start, end))) == tokens[start..]
  {
    if 0 <= start && 0 <= end {
      PySliceNonNegative(tokens, start, end);
      if start < end && start < |tokens| {
        var between := PySlice(tokens, start, end);
        if SpaceFree(between) {
          SplitJoin(between);
        }
      }
    }
  }

  /** Example: in "Alice and Bob married last year", with person 1
      ending at word 0 and person 2 starting at word 2, the text between is "and". */
  lemma TextBetweenExample()
    ensures GetTextBetween(Candidate(["Alice", "and", "Bob", "married", "last", "year"],
                                     Span(0, 0), Span(2, 2), [], [], [], "")).textBetween == "and"
  {
    var tokens := ["Alice", "and", "Bob", "married", "last", "year"];
    assert PySlice(tokens, 1, 2) == ["and"];
  }

  /** Nothing guards the indices: a negative start for person 2 counts from the
      end of the sentence, as Python slicing does, instead of being rejected. */
  lemma TextBetweenNegativeIndexWraps()
    ensures GetTextBetween(Candidate(["a", "b", "c", "d"],
                                     Span(0, 0), Span(-1, -1), [], [], [], "")).textBetween == "b c"
  {
    var tokens := ["a", "b", "c", "d"];
    assert PySlice(tokens, 1, -1) == ["b", "c"];
    assert Join(["b", "c"]) == "b" + [Space] + Join(["c"]);
  }
}
