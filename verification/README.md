# Pigeon pair compatibility: scoring and ranking

A Dafny model of the algorithm at the heart of the pigeon breeding
selector (`streamlit_app.py`). The app reads a table of birds, and each
bird has an id, a gender, three free-text categorical traits (colour, head
shape, feather pattern), a weight in grams, a power and a health rating,
and an optional image path. The app then:

1. **normalises** each categorical trait. It lower-cases the value and looks it
   up in a fixed per-trait table. Any value the table does not know scores 7
   (module `Traits`, record mapping in `Birds`);
2. **splits** the flock into the rows whose gender is exactly `"male"` and
   those whose gender is exactly `"female"` (`Birds.Group`);
3. **scores** every male against every female (`Scoring`, `Pairing`). For each
   pair it computes six absolute differences. The weight difference is
   divided by `max(1, target weight)` and multiplied by 10. It then forms a
   weighted sum `S` with the caller's six weights, and the compatibility is
   `max(0, round(100 - S, 2))`;
4. **ranks** the pairs by compatibility, highest first, and shows the head
   of that ranking as the best pair (`Ranking`, `Selector`). When there is no
   pair at all, the script as written stops at the sort, because a frame
   built from an empty list has no `compatibility` column
   (`Selector.SelectAsWritten`). The corrected ranking `Selector.Select`
   gives an empty table instead, which is what the script's later
   empty-table guard expects (see "## Findings").

Modules, leaf first: `Traits` (traits.dfy), `Birds` (birds.dfy),
`Rounding` (rounding.dfy), `Scoring` (scoring.dfy), `Pairing`
(pairing.dfy), `Ranking` (ranking.dfy), `Selector` (selector.dfy).

Modelling choices:
- The source's binary floats are modelled as exact `real`s.
- `round(x, 2)` is modelled as rounding to the nearest hundredth with ties
  to the even neighbour, which is Python's rule applied to the exact value.
- The loops are pure functions over `seq`.
- The cross product is a generic `Product` of two sequences, instantiated
  with the pair scorer.
- The ranking is a functional insertion sort. Its specification is "sorted
  by descending compatibility, and a permutation of its input".

Where the code is looser than its labels, the model follows the code
(the one exception is the empty-pair case recorded under "## Findings"):
- Ties in the ranking: the code sorts with pandas' default quicksort, which
  is not stable, so no order among equal scores is promised. The model
  states only "non-increasing and a permutation".
- Normalised scores: the value tables (streamlit_app.py:20-24) hold scores
  from 4 to 10, and the model proves exactly [4, 10].
- Weight difference: the comment at streamlit_app.py:62 calls the rescaled
  weight difference a 0–10 scale, but nothing caps it. A weight gap larger
  than the target gives more than 10. The model states only that it is
  non-negative and ten times the gap divided by `max(1, target)`.
- Power and health: the sidebar's target sliders are labelled 1–10
  (streamlit_app.py:31-32), but the birds' own values are never checked
  against that range, and the model does not require it.

## Model

| member | source | states |
|---|---|---|
| Traits.LowerChar | streamlit_app.py:45-47 | lower case of one character: never an ASCII capital or the Kelvin sign, changes only those, shifts a capital by 'a' - 'A', and turns the Kelvin sign into 'k' |
| Traits.Lower | streamlit_app.py:45-47 | lower-casing a string keeps its length and lowers every character in place |
| Traits.LowerIdempotent | streamlit_app.py:45-47 | lower-casing twice is lower-casing once |
| Traits.SameIgnoringCaseLower | streamlit_app.py:45-47 | two strings agree up to case exactly when their lower-cased forms are equal (both directions) |
| Traits.Lookup | streamlit_app.py:45-47 | a key of the table gives its table value; any other key gives the default 7, so the result is always 7 or one of the table's values |
| Traits.Normalise | streamlit_app.py:43-48 | normalisation is total, every score lies in [4, 10], and a value whose lower-cased form is not in the table scores exactly the default 7 |
| Traits.NormaliseCaseInsensitive | streamlit_app.py:45-47 | values that agree up to letter case score alike, and a value scores as its lower-cased form |
| Traits.ColorScores | streamlit_app.py:21 | colour scores 10 / 8 / 6 exactly for white / gray / black in any case, and 7 for brown or anything unknown |
| Traits.HeadScores | streamlit_app.py:22 | head shape scores 10 / 5 exactly for long / short, and 7 for medium or anything unknown |
| Traits.FeatherScores | streamlit_app.py:23 | feather pattern scores 10 / 4 exactly for smooth / rough, and 7 for medium or anything unknown |
| Traits.NormaliseExamples | streamlit_app.py:20-24 | "White" scores 10, "BLACK" 6, "blue" falls back to 7, "Medium" head 7, "Rough" feather 4 |
| Birds.MapRow | streamlit_app.py:43-48 | the normalised row keeps the bird unchanged and adds three scores, each in [4, 10] and each the trait's normalised value |
| Birds.MapAll | streamlit_app.py:50-51 | every row is normalised, in table order, and no row is lost |
| Birds.MapRowCaseInsensitive | streamlit_app.py:43-48 | birds whose categorical traits agree up to case get the same three scores |
| Birds.Group | streamlit_app.py:53-54 | a group holds exactly the rows whose gender equals the tag, each as often as in the table, and no others |
| Birds.GroupOfMapAll | streamlit_app.py:50-54 | the group of the normalised table holds only normalised rows of birds of the table with that gender, and every such bird's row |
| Birds.GroupsDisjoint | streamlit_app.py:53-54 | no row is both male and female, so the two groups together are no larger than the table |
| Birds.GroupEmpty | streamlit_app.py:53-54 | a table with no row of that gender gives an empty group |
| Rounding.RoundHalfEven | streamlit_app.py:69 | the result is an integer within 1/2 of the input, and the even one when the input lies halfway |
| Rounding.RoundHalfEvenMonotone | streamlit_app.py:69 | rounding never reverses order |
| Rounding.RoundHalfEvenInt | streamlit_app.py:69 | an integer rounds to itself |
| Rounding.Round2 | streamlit_app.py:69 | two-decimal rounding moves the value by at most 0.005, lands on a whole number of hundredths, and at an exact tie lands on the even hundredth |
| Rounding.Round2Monotone | streamlit_app.py:69 | two-decimal rounding never reverses order |
| Rounding.Round2Hundredths | streamlit_app.py:77 | a value with at most two decimals is left unchanged |
| Rounding.Round2Int | streamlit_app.py:69 | an integer is left unchanged by two-decimal rounding |
| Rounding.Round2Examples | streamlit_app.py:69 | 0.125 rounds to 0.12 and 0.375 to 0.38 (ties to even), 97.6 stays, 2/3 gives 0.67 |
| Scoring.WeightScale | streamlit_app.py:62 | the weight divisor is max(1, target): exactly 1 for a target below 1, zero or negative included, and the target itself otherwise |
| Scoring.TraitDiffs | streamlit_app.py:59-64 | all six differences are non-negative; for normalised birds the categorical ones are at most 6; the weight difference times the divisor is ten times the raw weight gap |
| Scoring.WeightedSum | streamlit_app.py:66-67 | non-negative weights and differences give a non-negative sum, and all-zero differences give 0 whatever the weights |
| Scoring.Compatibility | streamlit_app.py:69 | the score is never negative, is at most 100 for a non-negative sum, is exactly 100 for a zero sum, is within 0.005 of 100 - S when positive, and is positive whenever 100 - S exceeds 0.005 |
| Scoring.ImageOf | streamlit_app.py:80-81 | a bird's image path is passed through, or is the empty string when absent |
| Scoring.ScorePair | streamlit_app.py:59-82 | a pair carries both ids and both image paths unchanged; its stored differences are the birds' six trait differences, the weight one rounded to two decimals (within 0.005); its score is the compatibility of their weighted sum, at least 0, and at most 100 when the weights are non-negative |
| Scoring.DiffsZeroIff | streamlit_app.py:59-64 | all six differences are zero exactly when the birds agree on every scored trait (both directions), for any target weight |
| Scoring.DiffsSymmetric | streamlit_app.py:59-64 | the differences do not depend on which bird plays the male |
| Scoring.SelfCompatibility | streamlit_app.py:59-77 | birds alike in every scored trait score exactly 100 with a zero weight difference, for any weights and any target |
| Scoring.CompatibilityAntitone | streamlit_app.py:69 | a larger weighted sum never gives a higher compatibility |
| Scoring.WeightedSumMonotone | streamlit_app.py:66-67 | with non-negative weights, raising any differences never lowers the weighted sum |
| Scoring.LargerDiffsNeverScoreHigher | streamlit_app.py:59-69 | with non-negative weights, raising any one or more differences never raises the compatibility |
| Scoring.PairWithLargerDiffsNeverScoresHigher | streamlit_app.py:59-82 | with non-negative weights, a pair of birds whose trait differences are all at least those of another pair never gets a higher stored score |
| Scoring.WorkedExample | streamlit_app.py:59-82 | white vs black, power and health 9 vs 5, default weights 0.3/0.2/0.1/0.1/0.2/0.1: the sum is 2.4 and with image paths m1.png and f1.png the pair row is exactly (M1, F1, 97.6, diffs 4/0/0/0/4/4, "m1.png", "f1.png") |
| Pairing.Row | streamlit_app.py:58 | the inner loop yields one result per female, the j-th being the male's pairing with the j-th female |
| Pairing.Product | streamlit_app.py:56-58 | the double loop yields exactly one result per combination: the length of xs times the length of ys |
| Pairing.ProductAt | streamlit_app.py:56-58 | the i-th outer element with the j-th inner one sits at position i × (length of ys) + j |
| Pairing.ProductMember | streamlit_app.py:56-58 | position k holds outer element k div (length of ys) with inner element k mod (length of ys), so every result comes from some combination |
| Pairing.AllPairs | streamlit_app.py:56-82 | the pair list has exactly (number of males) × (number of females) entries |
| Pairing.AllPairsAt | streamlit_app.py:56-82 | the score of male i with female j is in the list, at position i × (number of females) + j |
| Pairing.AllPairsMember | streamlit_app.py:56-82 | every listed pair is the score of some male with some female |
| Pairing.NoPairsWithoutBothSexes | streamlit_app.py:56-58 | the pair list is empty exactly when there are no males or no females |
| Pairing.AllPairsBounded | streamlit_app.py:66-71 | with non-negative weights every listed score lies in [0, 100] |
| Ranking.Insert | streamlit_app.py:84 | inserting into a ranked list keeps it ranked and adds exactly the new pair |
| Ranking.Rank | streamlit_app.py:84 | the ranking is non-increasing in compatibility and is a permutation of the pairs |
| Ranking.RankKeepsPairs | streamlit_app.py:84 | ranking keeps the number of pairs and exactly the same pairs |
| Ranking.BestPair | streamlit_app.py:89-90 | there is a best pair exactly when the list is non-empty; it is one of the pairs and no pair scores higher |
| Selector.Males | streamlit_app.py:50-53 | the males are exactly the normalised rows of the flock whose gender is "male", each as often as in the table: every member is one, and every such bird is a member |
| Selector.Females | streamlit_app.py:50-54 | the females are exactly the normalised rows of the flock whose gender is "female", each as often as in the table: every member is one, and every such bird is a member |
| Selector.DuplicateRowsKept | streamlit_app.py:53 | a male row that appears twice in the table appears twice among the males |
| Selector.Pairs | streamlit_app.py:53-82 | the flock yields (number of males) × (number of females) pairs |
| Selector.SelectAsWritten | streamlit_app.py:84 | the script stops at the sort exactly when there are no males or no females; otherwise its table is ranked and a permutation of all male × female pairs |
| Selector.Select | streamlit_app.py:50-84 | the result table is ranked, is a permutation of all male × female pairs, has (number of males) × (number of females) rows, and all scores lie in [0, 100] when the weights are non-negative; with no pairs it is empty rather than a failed sort |
| Selector.SelectPairsMaleWithFemale | streamlit_app.py:71-82 | every ranked pair is the score of a male and a female of the flock and carries their ids and image paths |
| Selector.NoPairsNoBest | streamlit_app.py:89 | in the corrected ranking, a flock without males or without females gives an empty table and no best pair, the case the empty-table guard is written for |
| Selector.SelectAgreesWhenPairsExist | streamlit_app.py:84 | whenever there is a male and a female, the script's ranking step succeeds and gives the corrected table |
| Selector.SingleMaleStopsAtSort | streamlit_app.py:84-89 | a flock of a single male makes the script stop at the sort, while the corrected ranking gives an empty table and no best pair |
| Selector.OneMaleOneFemale | streamlit_app.py:53-54 | a flock of one male and one female splits into exactly those two |
| Selector.MatchingPairSelect | streamlit_app.py:53-84 | a male and a female that agree on every scored trait give exactly one pair, carrying their ids, of compatibility 100 |
| Selector.IdenticalBirdsExample | streamlit_app.py:56-84 | an identical male M1 and female F1 with target weight 400 give one pair (M1, F1) scoring 100.0, whatever the weights |

## Findings

| source | as written | input that shows it | evidently intended | confidence | as-written member | corrected member |
|---|---|---|---|---|---|---|
| streamlit_app.py:84 | the pair list is turned into a frame and sorted by `compatibility`; an empty list gives a frame with no columns, so the sort raises a missing-key error and the script stops | a flock with one male and no female (or no male) | an empty table and no best-pair panel, as the `if not pairs_df.empty` guard at line 89 shows | high; not executed | Selector.SelectAsWritten (counterexample Selector.SingleMaleStopsAtSort) | Selector.Select (Selector.NoPairsNoBest, Selector.SelectAgreesWhenPairsExist) |

## Left out

- Presentation is not modelled because it is not part of the algorithm. This covers the page set-up, sidebar widgets, headers and captions, the `st.dataframe` view of the first 20 rows and the total counts (streamlit_app.py:8-12, 26-40, 86-105). The sidebar's 0–1 range for the weights appears only as the `NonNegative` hypothesis of the bound and monotonicity properties.
- Loading the CSV (an upload, or the bundled `data.csv`) is file I/O and is not modelled. The model starts from a sequence of well-formed records, so missing columns cannot be expressed here. In the source:
  - a missing `color`, `head` or `feather` column, or a non-string value in one of them, fails during mapping (lines 43-51);
  - a missing `gender` column fails at the gender split (line 53);
  - a missing `id`, `weight`, `power` or `health` column fails inside the pair loop (lines 62-64 and 72), so only when there is at least one pair;
  - a missing `image_path` column is not a failure: both image paths become `''` (lines 80-81), which the model covers as a bird without an image path.
- Showing the best pair's images is not modelled. It uses a file-existence check, image decoding and its exception handler, which are filesystem and PIL code. Only the choice of the best pair (`Ranking.BestPair`) is modelled.
- The target colour, head, feather, power and health widgets are left out because they never enter the scoring. Only the target weight does, as `Config.weightTarget`.
- Ids are modelled as strings. The source accepts whatever the CSV column holds, and ids are only passed through.
- Traits.LowerChar: lower-cases the ASCII capitals and the Kelvin sign U+212A only. It leaves every other character alone, while Python's `str.lower` also lowers other non-ASCII letters. That changes no score: no other character lowers into a string that is a table key.
- Rounding.Round2: the arithmetic is exact over reals. The source's IEEE-754 binary floats, and their representation error in `round(x, 2)`, are not modelled.
- An empty image cell: a bird with no image path models the `image_path` column being absent, which gives `''`. An empty cell in a present column reads as NaN in pandas, and the model has no counterpart for it.
- Ranking.Rank: the order among pairs with equal compatibility is left unspecified, matching pandas' unstable default sort. The model's insertion sort happens to keep table order for ties, but no contract claims it.
