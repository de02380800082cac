# Case-based retrieval for threatened species, in Dafny

This project models the retrieval step of an application for case-based
reasoning over threatened species (`rbc_main.py`). A user types a
query case into a form: taxonomic group, order, family, species, conservation
category and a `lista_2014` flag. They also type one weight per attribute. The
system then compares the query with every row of the case library and lists
the rows by descending global similarity.

The model covers:

- the tables: the risk scale `risco_valor`, the group similarity matrix
  `similaridade_grupo` and the default weights `pesos_default`;
- the four local comparisons: the group matrix lookup, exact match for order,
  family and species, the ordinal comparison of categories, and the
  integer-flag comparison;
- the per-row weighted mean `sim_global`, written as a method with the
  source's accumulation loop and proved equal to a functional definition;
- the stable descending sort of the `(score, row)` pairs, written as an
  insertion sort on an array and proved to produce a permutation that is
  descending by score with ties in library order;
- the Python string behaviour the comparisons depend on: `strip()`, `lower()`,
  `upper()` and `int()` applied to text.

Files:

- `options.dfy`: the `Option` type;
- `text.dfy`: module `Text`, the string operations;
- `similarity.dfy`: module `Similarity`, the tables and the comparisons;
- `scoring.dfy`: module `Scoring`, the query, case and weight records, the
  global score and the per-row method;
- `ranking.dfy`: module `Ranking`, scoring the whole library, the sort and
  what is proved about its result.

Arithmetic is exact (`real`). The matrix is a dict of dicts in the source.
Here it is a 7×7 table indexed by each group's position in `Grupos`, together
with `GroupIndex` to find that position. `MatrixGet` gives the same answers
as the two chained `.get` calls, including 0 for a group the dict does not
hold.

## Model

| member | source | states |
|---|---|---|
| Text.Lower | rbc_main.py:92 | `lower()`: maps every upper-case letter to its lower-case partner; the result has the same length and no upper-case letter |
| Text.Upper | rbc_main.py:114 | `upper()`: maps every lower-case letter to its upper-case partner; the result has the same length and no lower-case letter |
| Text.ParseInt | rbc_main.py:128-129 | `int()` on text: skip surrounding whitespace, then an optional sign and one to 4300 decimal digits, with `None` for the `ValueError`; anything that parses is non-empty once stripped, at most 4301 characters long, and free of the separators U+001C..U+001F, which `int()` does not skip |
| Text.ParseIntStrip | rbc_main.py:92-129 | on text without separators, `int()` reads the stripped query value as it reads the raw value |
| Text.StripLeftDrops | rbc_main.py:92 | `lstrip()` removes exactly a run of leading whitespace: the result is a suffix, everything dropped is whitespace, and the result does not start with whitespace |
| Text.StripRightDrops | rbc_main.py:92 | `rstrip()` removes exactly a run of trailing whitespace, symmetrically |
| Text.Strip | rbc_main.py:92 | `strip()` always gives a trimmed string, and leaves a string unchanged exactly when it is already trimmed |
| Text.StripLower | rbc_main.py:92 | stripping and lower-casing commute, so the order of the query's `.strip().lower()` does not matter |
| Text.LowerLower | rbc_main.py:92 | lower-casing twice is the same as once |
| Text.LowerTrimmed | rbc_main.py:102 | a string is trimmed whenever its lower-cased form is, since `lower()` neither creates nor removes whitespace |
| Text.UpperTrimmed | rbc_main.py:116 | a string is trimmed whenever its upper-cased form is |
| Text.UpperLower | rbc_main.py:114 | `upper()` after `lower()` is the same as `upper()` alone, so the lowered query category is compared correctly |
| Text.ParseDigitsChars | rbc_main.py:128-129 | a run of text is read as digits exactly when it is non-empty and all decimal digits |
| Text.ShowNat | rbc_main.py:129 | stands for an integer library cell read as its decimal text: that text starts with a digit and reads back as the number |
| Text.ShowIntChars | rbc_main.py:128-129 | `str(n)` is an optional minus sign and decimal digits, the digits being `str(abs(n))` |
| Text.ParseSignedShowInt | rbc_main.py:128-129 | the sign-and-digits reading of `str(n)` gives back `n` for every integer of at most 4300 digits |
| Text.ParseIntShowInt | rbc_main.py:128-129 | `int(str(n)) == n` for every integer of at most 4300 digits, the limit beyond which Python's `str()` and `int()` raise |
| Text.ParseSignedChars | rbc_main.py:128-129 | text that `int()` accepts holds only digits and signs |
| Text.LowerParsable | rbc_main.py:128 | lower-casing leaves text that `int()` accepts unchanged |
| Text.LowerUnparsable | rbc_main.py:128 | text that `int()` rejects is still rejected after lower-casing |
| Text.ParseIntLower | rbc_main.py:128 | `int(s.lower())` and `int(s)` agree on every string, failures included |
| Similarity.GroupTrimmed | rbc_main.py:25-40 | no group key of the matrix carries surrounding whitespace |
| Similarity.CategoryTrimmed | rbc_main.py:15-22 | no category code of the risk scale carries surrounding whitespace |
| Similarity.GroupIndex | rbc_main.py:25-40 | a group has a position exactly when it is one of the seven matrix keys, and that position holds the group |
| Similarity.MatrixComplete | rbc_main.py:25-40 | every group has a row covering all seven groups, and every entry lies in [0, 1] |
| Similarity.TableSymmetric | rbc_main.py:25-40 | the table is symmetric, and 1 appears on its diagonal and nowhere else |
| Similarity.MatrixGet | rbc_main.py:103 | the two-level `.get` lookup lies in [0, 1] and gives 0 when either group is unknown |
| Similarity.MatrixReflexive | rbc_main.py:25-40 | a lookup gives 1 exactly when both groups are the same known group |
| Similarity.MatrixSymmetric | rbc_main.py:25-40 | the lookup is symmetric in its two groups, unknown groups included |
| Similarity.GroupSim | rbc_main.py:101-103 | the group term lies in [0, 1], is 0 for an unknown group on either side, and is 1 exactly when the query group is known and equals the lower-cased case group |
| Similarity.ExactMatch | rbc_main.py:107-109 | the identity term is 1 when the query value equals the lower-cased case value and 0 when it does not |
| Similarity.CaseSeverity | rbc_main.py:117 | a case-side category code maps into [0, 1], and an unknown code maps to 1.0 |
| Similarity.OrdinalSim | rbc_main.py:113-120 | the category term lies in [0, 1], is 0 for an unrecognised query code, and is 1 exactly when the query code is known and the case code equals it, or the case code is unknown and the query code is `EX` |
| Similarity.OrdinalSimSymmetric | rbc_main.py:113-118 | between two recognised codes the category term is symmetric |
| Similarity.ScaleIncreasing | rbc_main.py:15-22 | the scale holds exactly the six codes, with strictly increasing severity from `VU` to `EX` |
| Similarity.FlagMatch | rbc_main.py:126-132 | the flag term is 0 or 1, and is 1 exactly when both sides parse as integers and those integers are equal |
| Similarity.FlagMatchShowInt | rbc_main.py:126-132 | two printed integers match exactly when they are equal |
| Scoring.Normalize | rbc_main.py:92 | `caso_entrada`: every query field stripped and lower-cased; each resulting field is trimmed and already lower-case |
| Scoring.Sims | rbc_main.py:101-132 | the six local similarities in the order `s_locais` is filled: group, order, family, species (weight key `especie` against column `especie_ou_subespecie`), category, flag |
| Scoring.CaseScore | rbc_main.py:137 | `sim_global`: the sum of each similarity times its weight, divided by the sum of all six weights, or 0 when that sum is not positive |
| Scoring.NormalizeIdempotent | rbc_main.py:92 | normalising an already normalised query changes nothing |
| Scoring.TotalWeightIsSum | rbc_main.py:99-134 | `p_total` is the sum of all six weights, whatever the comparisons gave |
| Scoring.ProductsBounded | rbc_main.py:104-137 | with similarities in [0, 1] and non-negative weights, the weighted sum lies between 0 and the total weight |
| Scoring.ProductsFull | rbc_main.py:104-137 | with positive weights, the weighted sum reaches the total weight exactly when every similarity is 1 |
| Scoring.ProductsOfOnes | rbc_main.py:104-137 | when every similarity is 1, the weighted sum equals the total weight |
| Scoring.SimsInUnit | rbc_main.py:101-134 | all six local similarities lie in [0, 1] |
| Scoring.ScoreInUnitInterval | rbc_main.py:137 | with non-negative weights the global score lies in [0, 1] |
| Scoring.ZeroWeightsScoreZero | rbc_main.py:137 | when the weights do not add up to something positive, every row scores 0 |
| Scoring.FullMatchSims | rbc_main.py:101-134 | all six local similarities are 1 exactly when every attribute matches in full |
| Scoring.ScoreOneIffFullMatch | rbc_main.py:137 | with positive weights a row scores 1 exactly when every attribute matches in full |
| Scoring.AllOnesScoreOne | rbc_main.py:137 | a full match scores 1 under any weights with a positive total |
| Scoring.DefaultWeights | rbc_main.py:43-50 | the default weights are all positive and add up to 10 |
| Scoring.SelfFullMatch | rbc_main.py:92-134 | a row whose order, family and species are trimmed, with a known group, a known category and an integer flag, fully matches the query typed from its own values |
| Scoring.SelfMatchScoresOne | rbc_main.py:91-137 | such a row scores 1 against itself under any weights with a positive total |
| Scoring.Accumulate | rbc_main.py:101-134 | appending a weighted similarity to `s_locais` and its weight to `p_total` keeps both equal to the prefix sums of the six terms; `AccumulateGroup`, `AccumulateIdentity`, `AccumulateCategory` and `AccumulateFlag` apply it at positions 0, 1-3 (the `zip` loop, pairing `especie` with `especie_ou_subespecie`), 4 and 5 |
| Scoring.AccumulatedScore | rbc_main.py:137 | once all six terms are in, `sum(s_locais) / p_total` (or 0) is the row's global score |
| Scoring.ScoreRow | rbc_main.py:97-137 | the per-row loop body computes exactly the row's global score |
| Ranking.Scores | rbc_main.py:97-138 | `resultados` before the sort: one entry per library row, in library order, holding that row's global score and its position |
| Ranking.InsertedOrdered | rbc_main.py:141 | moving the next entry back past exactly the lower-scored entries extends the sorted prefix |
| Ranking.MovedBackPermutes | rbc_main.py:141 | moving one entry back only reorders the list |
| Ranking.InsertAt | rbc_main.py:141 | one insertion pass extends the sorted prefix by one entry, keeps the entries, and leaves the unsorted rest alone |
| Ranking.SortDescending | rbc_main.py:141 | sorting by score only, descending, yields a permutation that is descending by score with equal scores in library order |
| Ranking.Rank | rbc_main.py:91-141 | the result has one entry per library row and is the stable descending ranking of the scored rows |
| Ranking.OrderedHeads | rbc_main.py:141 | two stable descending orderings of the same entries start with the same entry |
| Ranking.TailsPermuted | rbc_main.py:141 | removing a shared first entry leaves two permutations of each other |
| Ranking.OrderedUnique | rbc_main.py:141 | two stable descending orderings of the same entries are equal, so the stable ranking of a scored list is unique and any stable sort gives the same list as this one |
| Ranking.RankedEntries | rbc_main.py:138-141 | every ranked entry is a library row carrying that row's own global score |
| Ranking.ZeroWeightsKeepOrder | rbc_main.py:137-141 | when the weights do not add up to something positive, every score is 0 and the ranking is the library order |

## Left out

- The Tk form, reading the widgets and printing the results (lines 142-144) are user interface. The query arrives as text fields and the weights as numbers.
- Loading `dados.csv` with pandas is left out. The library is a sequence of rows whose six columns are text, as `str(row[...])` gives them.
- `float(...)` on the weight fields is left out. Weights are exact reals, and a weight that does not parse (a `ValueError` in the source) is not modelled.
- IEEE floating-point rounding is left out, because arithmetic is exact. This matters for boundary cases such as a score of exactly 1.0 or ties between scores.
- Text.Lower and Text.Upper: case mapping covers Latin-1 letters only (A–Z and U+00C0–U+00DE except U+00D7, plus their lower-case partners). This includes every accented group name of the matrix. `ÿ`, `µ`, `ß` and letters outside Latin-1 are left unchanged, where Python would map them.
- Text.Strip: whitespace is Python's `isspace` restricted to Latin-1.
- Text.ParseInt: `int()` is modelled on text as strip, an optional sign and one to 4300 ASCII digits (Python 3.11's default `sys.get_int_max_str_digits()`; a longer run raises `ValueError`, which the bare `except:` turns into 0). Underscores between digits and non-ASCII digits, which Python also accepts, are left out, and so is a changed digit limit. The whitespace skipped is that of `strip()` minus the separators U+001C..U+001F; as `int()` does, U+0085 and U+00A0 are skipped.
- Similarity.FlagMatch: the case-side `lista_2014` cell is parsed as text. pandas may hand `int()` a number instead, and `int()` on a float cell (such as `1.0`) truncates where the text model rejects. That behaviour is not modelled.
- The bare `except:` around the flag comparison also catches errors other than a failed parse. Only the parse failure is modelled, because `int()` on text raises nothing else.
- Ranking.SortDescending: Python's sort is Timsort. The model uses an insertion sort by adjacent swaps that compares scores only. `Ranking.OrderedUnique` shows that every stable descending sort gives the same list, so the result is the same.
- Rows are told apart by their position in the library (the pandas row index), which `Ranking.Scored` carries alongside the row.
