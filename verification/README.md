# Spouse-relation labeling rules, in Dafny

This project models the labeling rules of `main.py`, a weak-supervision script
for spouse relation extraction. A candidate is a sentence with two
person mentions. The script asks whether the two people are married. Five
heuristic labeling functions each cast a vote on a candidate: POSITIVE (1),
NEGATIVE (0) or ABSTAIN (-1). They do this by looking tokens up in three fixed
word lists: spouse words, family words with their "-in-law" forms, and
other-relationship words. A preprocessor joins the tokens between the two
mentions into a `text_between` string.

Modules:

- `Labels` (`labels.dfy`): the vote type and its integer encoding, with its inverse, the decoding.
- `Text` (`text.dfy`): Python slicing `tokens[start:end]`, including negative
  bounds, and `" ".join`. It also defines `str.split(" ")` as the inverse
  against which the join is proved, in both directions.
- `WordSets` (`word_sets.dfy`): the `spouses`, `family` and `other` constants.
  The family list is built as a set comprehension over the fifteen base terms.
- `Candidates` (`candidate.dfy`): the candidate record and the text-between preprocessor.
- `LabelingFunctions` (`labeling_functions.dfy`): the five labeling functions.
  Each one is characterised against an independent "some token is a listed
  word" predicate. The file also holds the lemmas about set-only dependence,
  monotonicity, symmetry and conflicts.
- `LabelRows` (`label_row.dfy`): the registered list of labeling functions and
  the row of votes it gives for one candidate.

Inputs that other modules produce are taken as given fields of the candidate:
`between_tokens`, and the two left-context token lists from `get_left_tokens`.
These are not computed in this model.

main.py:36-38 does not check the mention indices. Python slicing gives "" for
crossed bounds and counts a negative index from the end of the sentence
(`Candidates.TextBetweenNegativeIndexWraps`); the model follows that slicing exactly.

## Model

| member | source | states |
|---|---|---|
| Labels.ToInt | main.py:16-18 | the value is 1 exactly for POSITIVE, 0 exactly for NEGATIVE and -1 exactly for ABSTAIN, and always lies in [-1, 1] |
| Labels.FromInt | main.py:16-18 | a matrix integer decodes to a vote exactly when it lies in {-1, 0, 1} |
| Labels.FromToInt | main.py:16-18 | decoding an encoded vote returns that vote |
| Labels.ToFromInt | main.py:16-18 | every integer in {-1, 0, 1} is the encoding of the vote it decodes to |
| Labels.ToIntInjective | main.py:16-18 | two votes have the same integer only if they are the same vote |
| Text.SliceBound | main.py:38 | a Python slice bound always ends up in [0, n]: a non-negative bound is clamped to n, a negative one counts back from n, and one below -n becomes 0 |
| Text.PySlice | main.py:38 | `tokens[start:end]` holds the elements from the normalised start up to the normalised end, and it is empty when those bounds cross |
| Text.PySliceNonNegative | main.py:36-38 | with non-negative bounds a slice is the plain clamped sub-sequence, and it is empty once start >= end |
| Text.Join | main.py:38 | `" ".join` of no tokens is "", of one token is that token, and of n >= 1 tokens is as long as the tokens plus n-1 separators, starting with the first token |
| Text.Split | main.py:38 | the inverse of the join (`str.split(" ")`) yields one more piece than there are spaces, and no piece contains a space |
| Text.JoinSpaces | main.py:38 | joining n space-free tokens inserts exactly n-1 spaces |
| Text.SplitJoin | main.py:38 | splitting the joined text gives back the tokens, when there is at least one token and none contains a space |
| Text.JoinSplit | main.py:38 | joining the pieces of any string with single spaces rebuilds that string |
| Text.JoinEmpty | main.py:38 | the join is empty exactly for no tokens or for one empty token |
| Text.JoinAppend | main.py:38 | the join of two non-empty token lists placed one after the other is the join of the first, one space, and the join of the second, for any tokens including ones that contain spaces |
| Candidates.GetTextBetween | main.py:31-39 | only `text_between` changes; with non-negative indices it is the space-join of `tokens[p1_end+1 .. p2_start)`, with an end past the sentence clamped to its length, and it is "" when the bounds touch or cross or the start is past the last token; when those tokens are non-empty and space-free the text splits back into exactly them; in range its length is their total length plus the separators |
| Candidates.JoinedSliceSplitsBack | main.py:36-38 | with non-negative bounds the joined slice is the join of the clamped sub-sequence, is "" when the bounds cross or start past the end, and splits back into that sub-sequence when it is non-empty and space-free |
| Candidates.TextBetweenExample | main.py:36-38 | in "Alice and Bob married last year", with person 1 ending at word 0 and person 2 starting at word 2, the text between is "and" |
| Candidates.TextBetweenNegativeIndexWraps | main.py:36-38 | a negative start index for person 2 is not rejected; it counts from the end of the sentence |
| WordSets.InLaw | main.py:49 | every word of the base list has its "-in-law" form in the comprehension |
| WordSets.SuffixInjective | main.py:49 | two words with the same "-in-law" form are the same word |
| WordSets.InLawCardinality | main.py:49 | the in-law comprehension has exactly as many words as the list it is built from |
| WordSets.InLawEndsInW | main.py:49 | every in-law word ends in the last letter of "-in-law" |
| WordSets.FamilyBaseLastChar | main.py:44-48 | no base family term ends in 'w' |
| WordSets.FamilyMembership | main.py:44-49 | a word is in `family` exactly when it is a base term or a base term followed by "-in-law" |
| WordSets.InLawNotBase | main.py:44-49 | no in-law word is itself a base term |
| WordSets.BaseSize | main.py:44-48 | the base family list has fifteen distinct terms |
| WordSets.DisjointUnionSize | main.py:49 | the union of two disjoint word sets is as large as the two together |
| WordSets.FamilySize | main.py:44-49 | `family` has exactly 30 words |
| WordSets.InLawAvoidsOthers | main.py:43-54 | no spouse word and no other-relationship word is an in-law word |
| WordSets.SpousesNotBase | main.py:43-48 | no spouse word is a base family term |
| WordSets.OtherNotBase | main.py:44-54 | no other-relationship word is a base family term |
| WordSets.SpousesNotOther | main.py:43-54 | no spouse word is an other-relationship word |
| WordSets.WordSetsDisjoint | main.py:43-54 | `spouses`, `family` and `other` are pairwise disjoint |
| WordSets.MarriedInNoList | main.py:43-61 | the word "married" is in none of `spouses`, `family` and `other` |
| LabelingFunctions.ToSet | main.py:71 | `set(tokens)` holds exactly the words that occur in the tokens |
| LabelingFunctions.IntersectsIffMentions | main.py:71 | a non-empty intersection of a word list with `set(tokens)` is the same as some token being a listed word |
| LabelingFunctions.LfMarried | main.py:56-61 | POSITIVE exactly when some between token is "married", otherwise ABSTAIN; never NEGATIVE |
| LabelingFunctions.LfHusbandWife | main.py:63-71 | POSITIVE exactly when some between token is a spouse word, otherwise ABSTAIN; never NEGATIVE |
| LabelingFunctions.LfFamilialRelationship | main.py:73-78 | NEGATIVE exactly when some between token is a family word, otherwise ABSTAIN; never POSITIVE |
| LabelingFunctions.LfOtherRelationship | main.py:80-85 | NEGATIVE exactly when some between token is an other-relationship word, otherwise ABSTAIN; never POSITIVE |
| LabelingFunctions.LfHusbandWifeLeftWindow | main.py:87-98 | POSITIVE exactly when a spouse word is in person 1's or person 2's left tokens, otherwise ABSTAIN; never NEGATIVE |
| LabelingFunctions.MentionsSetOnly | main.py:71 | whether a word list is met depends on the token set alone, and more tokens keep it met |
| LabelingFunctions.BetweenVotesDependOnTokenSetOnly | main.py:61-85 | two candidates with the same set of between tokens get the same four between-token votes, whatever the order, repetitions or other fields |
| LabelingFunctions.BetweenVotesMonotone | main.py:61-85 | a superset of between tokens keeps every POSITIVE and every NEGATIVE vote already cast |
| LabelingFunctions.AppendingTokensKeepsVotes | main.py:71-85 | appending between tokens never withdraws a spouse, family or other-relationship vote |
| LabelingFunctions.LeftWindowSymmetric | main.py:93-98 | swapping the two left-token lists does not change the left-window vote |
| LabelingFunctions.LeftWindowIsHusbandWifeOnBothContexts | main.py:88-98 | the left-window vote equals the between-token spouse vote taken over both left contexts together |
| LabelingFunctions.SpouseWordIsNothingElse | main.py:43-54 | a spouse word is neither a family word nor an other-relationship word |
| LabelingFunctions.ConflictNeedsTwoWords | main.py:63-85 | a spouse POSITIVE alongside a family or other NEGATIVE needs at least two different between tokens |
| LabelingFunctions.SingleTokenNoConflict | main.py:63-85 | with one between token, the spouse rule and a family or other rule never fire together |
| LabelingFunctions.SingleTokenMarriedNoConflict | main.py:56-85 | with one between token, the "married" rule and a family or other rule never fire together |
| LabelRows.ApplyHasPolarity | main.py:56-98 | each registered function either abstains or casts its single designed polarity |
| LabelRows.LabelRow | main.py:101-107 | a candidate's row has one cell per registered function, in registration order; each cell is -1 or that column's polarity, and it decodes to the vote cast |
| LabelRows.SingleTokenRowHasNoConflict | main.py:101-107 | with one between token, neither column 0 (spouse) nor column 2 ("married") is 1 while column 3 or 4 (family, other) is 0 |

## Left out

- `load_data`, `get_person_text`, `get_left_tokens` and `get_person_last_names` live in modules that are not part of this model. Their outputs (`tokens`, the mention spans, `between_tokens`, and the left-context lists) are fields of the candidate and are never computed here.
- The labeling-function and preprocessor decorators, `PandasLFApplier`, `LFAnalysis` and `LabelModel.fit` are calls into an external weak-supervision library. `LabelModel.fit` is also seeded floating-point estimation. Only the registration order of the function list is modelled (`LabelRows`), not the applier that builds the matrix from it.
- The printing and sample inspection at main.py:24-28 and main.py:110-118 are console output.
- The `text_between` attribute does not exist on a candidate until the preprocessor runs. Here it is an ordinary string field that the preprocessor overwrites.
- Candidates.GetTextBetween: the value of `text_between` is stated in closed form only for non-negative indices. With a negative index Python wraps it, and the contract then only promises that no other field changes; Candidates.TextBetweenNegativeIndexWraps shows one such case.
