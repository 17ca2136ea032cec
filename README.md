# Roulette six-line strategy engine in Dafny

This project models the strategy engine of a roulette betting helper. The
engine gets the spin history and the most recent spins. It looks for the
longest suffix of the recent spins, at most five numbers, that occurs in the
history with another number after it. It tries the lengths from
min(number of recent spins, 5) down to 1, longest first. It then collects the numbers that followed each occurrence and
counts them per six-line, where six-line k covers 6k-5..6k. It suggests the
two most frequent six-lines, with ties going to the lower id because the
sort is stable. It returns the numbers of those lines in ascending order,
along with the distinct numbers that followed, in order of first appearance.
A second entry point turns free text into a list of numbers.

The modules are:

- `Catalog` holds the static catalogs of `types.ts`: the six-lines, the
  22 corners and the result shapes. `types.ts` declares a `StrategyResult`
  with `suggestedIds` and a `betType` field. `analyzeStrategy` builds a
  different record, with `suggestedLines` and no `betType`, and the caller in
  `App.tsx` reads `suggestedLines`. The model keeps both shapes:
  `Catalog.DeclaredStrategyResult` is the declared shape and is never built,
  and `StrategyEngine.StrategyResult` is the record the engine actually returns.
- `NumberInput` models `parseNumberInput`. It splits the text at runs of
  JavaScript white space, `,` and `;`, trims each field, drops empty fields
  and converts the rest to numbers.
- `PatternSearch` states the suffix matcher over sequences. It covers where a
  suffix occurs with a follower, which numbers followed it, and which depth
  the step-down search settles on.
- `LineRanking` models `getLineForNumber`, the per-line tally, and the
  stable sort by count in descending order. It also covers the choice of the
  top two lines and the numbers suggested for them.
- `StrategyEngine` holds `AnalyzeStrategy`, a method with the source's
  loops: the step-down `while`, the scan `for` with its inner compare loop
  and `break`, and the `forEach` tally. Its postcondition equates its result
  with the function `Analyze`. The lemmas after it state what every result
  of `Analyze` promises.

## Model

| member | source | states |
|---|---|---|
| `Catalog.SixLinesLayout` | types.ts:17-24 | There are six six-lines; the k-th has id k+1 and covers exactly the six numbers 6k+1..6k+6, in ascending order. |
| `Catalog.SixLinesPartition` | types.ts:17-24 | A number lies on some six-line exactly when it is in 1..36, and the only line holding n is the one at index (n-1)/6. |
| `Catalog.CornersLayout` | types.ts:26-49 | There are 22 corners; the k-th has id 101+k and covers the 2x2 square of the three-column table anchored at 3*(k/2)+k%2+1, which is never in the third column. |
| `Catalog.CornersCoverEverySquare` | types.ts:26-49 | Every 2x2 square of the 1..36 table, anchored in the first or second column, is one of the corners. |
| `Catalog.ZeroInNoSector` | types.ts:17-49 | 0 is on no six-line and on no corner. |
| `Catalog.OverlapOfCorners` | types.ts:17-49 | A number such as 5 is on only one six-line but on four corners (101 to 104). |
| `NumberInput.Split` | services/StrategyEngine.ts:6 | Definition: the fields between maximal runs of separators. The contract states there is always at least one field. |
| `NumberInput.TrimAll` | services/StrategyEngine.ts:7 | Trims every field and keeps one field per field. |
| `NumberInput.DropEmpty` | services/StrategyEngine.ts:8 | Keeps the fields in order and never more of them; every field kept is non-empty. |
| `NumberInput.ParseNumberInput` | services/StrategyEngine.ts:4-11 | The entry point: the tokens converted to numbers, at most one number per token. What comes out is stated by ParseOfRenderedSpins, KeepNumbersConcat and KeepNumbersOfToken. |
| `NumberInput.TokensAreWords` | services/StrategyEngine.ts:5-8 | Every token that is kept is non-empty and contains no separator. |
| `NumberInput.TrimAllWords` | services/StrategyEngine.ts:6-7 | Trimming the fields produced by the split changes nothing, because no field holds white space. |
| `NumberInput.DropEmptyKeeps` | services/StrategyEngine.ts:8 | A field survives the filter exactly when it is non-empty. |
| `NumberInput.SeparatorsVanish` | services/StrategyEngine.ts:5-8 | Leading separators produce no token. |
| `NumberInput.TokensSplitAtSeparator` | services/StrategyEngine.ts:5-8 | A separator cuts the text into two parts that are tokenized independently: the tokens of a+c+b are the tokens of a followed by the tokens of b. |
| `NumberInput.TokensOfJoin` | services/StrategyEngine.ts:5-8 | Non-empty separator-free tokens joined with any non-empty run of separators tokenize back to the same tokens. |
| `NumberInput.TokensKeepEveryCharacter` | services/StrategyEngine.ts:5-8 | Concatenating the tokens gives the input with its separators removed, so only separators are discarded. |
| `NumberInput.KeepNumbers` | services/StrategyEngine.ts:9-10 | Conversion yields at most one number per token, and every number kept is non-negative. |
| `NumberInput.KeepNumbersConcat` | services/StrategyEngine.ts:9-10 | Conversion works token by token and keeps order: the numbers of a + b are the numbers of a followed by those of b. |
| `NumberInput.KeepNumbersOfToken` | services/StrategyEngine.ts:9-10 | A single token gives its value when it is a number and is dropped when it is not. |
| `NumberInput.ExampleSkipsNonNumber` | services/StrategyEngine.ts:9-10 | The tokens "5", "x", "7" give 5, 7: the non-number is dropped and its neighbours are kept. |
| `NumberInput.DecimalRoundTrip` | services/StrategyEngine.ts:9 | Converting the decimal rendering of n gives back n. |
| `NumberInput.KeepDecimals` | services/StrategyEngine.ts:9-10 | A list of decimal renderings converts back to the original numbers, with none dropped. |
| `NumberInput.ParseOfRenderedSpins` | services/StrategyEngine.ts:4-11 | Parsing spins written as "a, b, c" gives back exactly those spins. |
| `LineRanking.FindLine` | services/StrategyEngine.ts:14 | The line found contains n and belongs to the list searched; nothing is found exactly when no line contains n. |
| `LineRanking.FindLineInRun` | services/StrategyEngine.ts:14 | On a run of consecutive six-lines, the search finds the line of n when n is in the run's range and nothing otherwise. |
| `LineRanking.GetLineForNumber` | services/StrategyEngine.ts:13-16 | The line id is (n-1)/6+1 for n in 1..36 and null for any other number, 0 included. |
| `LineRanking.Tally` | services/StrategyEngine.ts:56-62 | The map's keys are exactly the line ids 1..6 that some number on the list falls on, and each value is how many numbers fall on that line. |
| `LineRanking.HitByNumber` | services/StrategyEngine.ts:57-61 | A number on a line makes that line appear in the tally. |
| `LineRanking.NoLineHitIffOffBoard` | services/StrategyEngine.ts:57-62 | The tally is empty exactly when every number is outside 1..36. |
| `LineRanking.EntriesUpTo` | services/StrategyEngine.ts:65-66 | The entries are exactly the map's (id, count) pairs with id up to n, in ascending id order, which is how integer keys are enumerated. |
| `LineRanking.Entries` | services/StrategyEngine.ts:65-66 | The entries of a tally are exactly its (id, count) pairs for the six-line ids, in strictly ascending id order. |
| `LineRanking.EntriesOfTally` | services/StrategyEngine.ts:65-66 | The entries of the tally are exactly the pairs (line, count) of the lines hit. |
| `LineRanking.InsertByCount` | services/StrategyEngine.ts:67 | Inserting an entry yields a permutation of the list plus that entry. |
| `LineRanking.SortByCount` | services/StrategyEngine.ts:67 | Sorting yields a permutation of its input. |
| `LineRanking.InsertKeepsRanking` | services/StrategyEngine.ts:67 | Inserting an entry whose id is below every id of a ranked list keeps the list ranked: count descending, equal counts by ascending id. |
| `LineRanking.SortRanksEntries` | services/StrategyEngine.ts:65-67 | The stable sort by descending count of id-ordered entries is ranked: a higher count comes first, and equal counts keep ascending id. |
| `LineRanking.SortRankedIsIdentity` | services/StrategyEngine.ts:67 | Sorting a list that is already ranked leaves it unchanged. |
| `LineRanking.RankedTallyLists` | services/StrategyEngine.ts:56-67 | The sorted entries are ranked and hold exactly one (line, count) pair for each line hit. |
| `LineRanking.RankedTallyDistinct` | services/StrategyEngine.ts:56-67 | The sorted entries also carry pairwise distinct line ids. |
| `LineRanking.TopIds` | services/StrategyEngine.ts:70 | The ids taken are those of the first min(2, n) entries, in order. |
| `LineRanking.TopLines` | services/StrategyEngine.ts:64-70 | The ids of the first two entries after the sort by count, so at most two lines. Which lines are chosen is stated by TopLinesChoice and TopLinesRanking. |
| `LineRanking.TopOfRanked` | services/StrategyEngine.ts:70 | Taking the first two of a ranked list gives distinct ids that rank before every entry not taken; with fewer than two taken, every entry is taken. |
| `LineRanking.TopLinesChoice` | services/StrategyEngine.ts:56-72 | At most two lines are chosen, all distinct and in 1..6, each hit by some number. None is chosen exactly when no line is hit, and when fewer than two are chosen, no other line is hit. |
| `LineRanking.TopLinesRanking` | services/StrategyEngine.ts:64-70 | No unchosen line was hit more often than a chosen one, or as often with a smaller id; the first chosen line ranks before the second. |
| `LineRanking.InsertNumber` | services/StrategyEngine.ts:77 | Inserting into an ascending list keeps it ascending and adds exactly that number. |
| `LineRanking.SortAscending` | services/StrategyEngine.ts:77 | The numeric sort yields an ascending permutation of its input. |
| `LineRanking.SortSortedIsIdentity` | services/StrategyEngine.ts:77 | Sorting an ascending list leaves it unchanged. |
| `LineRanking.ChosenNumbersOfRun` | services/StrategyEngine.ts:74-76 | Filtering a run of six-lines by the chosen ids and flattening their numbers gives a strictly ascending list. It holds exactly the numbers of the run whose line was chosen, six per chosen line. |
| `LineRanking.ChosenIdsOfRun` | services/StrategyEngine.ts:75 | The ids of the lines the filter keeps are strictly ascending and are exactly the chosen ids within the run. |
| `LineRanking.SuggestedNumbers` | services/StrategyEngine.ts:74-77 | Definition: the six-lines whose id was chosen, filtered in catalog order, with their numbers flattened and sorted ascending. SuggestedNumbersUnion states what that list holds. |
| `LineRanking.SuggestedNumbersUnion` | services/StrategyEngine.ts:74-77 | For distinct chosen ids in 1..6, the suggested numbers are strictly ascending, are exactly the numbers 1..36 whose line was chosen, and number six per chosen line. |
| `PatternSearch.Suffix` | services/StrategyEngine.ts:32 | The sequence to match has exactly the requested length. |
| `PatternSearch.MatchesBelow` | services/StrategyEngine.ts:36-46 | The start indices scanned below n are exactly those where the sequence occurs with a number after it, in ascending order. |
| `PatternSearch.Matches` | services/StrategyEngine.ts:36-46 | Definition: the occurrences found by scanning every start index that leaves room for a follower. MatchesSoundAndComplete states what they are. |
| `PatternSearch.Followers` | services/StrategyEngine.ts:36-46 | The numbers recorded by the scan, one per occurrence. FollowersAreNextSpins states which numbers they are. |
| `PatternSearch.FollowersBelowLength` | services/StrategyEngine.ts:44-46 | One number is recorded per occurrence. |
| `PatternSearch.FollowerBelowAt` | services/StrategyEngine.ts:45 | The k-th number recorded is the one right after the k-th occurrence. |
| `PatternSearch.MatchesSoundAndComplete` | services/StrategyEngine.ts:36-46 | An index is matched exactly when the sequence occurs there with a follower. The matches ascend, and the followers are the numbers after them, in the same order. |
| `PatternSearch.FollowersAreNextSpins` | services/StrategyEngine.ts:36-46 | A number is among the followers exactly when it comes right after some occurrence of the sequence. |
| `PatternSearch.FollowersNonEmptyIffOccurs` | services/StrategyEngine.ts:36-49 | Some number followed the sequence exactly when it occurs somewhere with a follower. |
| `PatternSearch.ChosenDepth` | services/StrategyEngine.ts:31-51 | The depth the step-down settles on is at most the first depth tried, has followers when positive, and every deeper depth tried had none. |
| `PatternSearch.OccurrenceShortens` | services/StrategyEngine.ts:31-51 | An occurrence of the suffix of length e is, one index later, an occurrence of the suffix of length e-1. |
| `PatternSearch.ShorterSuffixesOccur` | services/StrategyEngine.ts:31-51 | An occurrence of a suffix implies occurrences of every shorter non-empty suffix. |
| `PatternSearch.NoDepthIffLastSpinUnseen` | services/StrategyEngine.ts:31-53 | The search ends empty-handed exactly when the last spin appears nowhere in the history before its final entry. |
| `StrategyEngine.MaxSearch` | services/StrategyEngine.ts:26 | The first depth tried is the number of recent spins, capped at 5. |
| `StrategyEngine.UniqueInOrder` | services/StrategyEngine.ts:84 | The de-duplicated list has the same elements as its input, each exactly once. |
| `StrategyEngine.UniqueInOrderFollowsFirstOccurrence` | services/StrategyEngine.ts:84 | The de-duplicated numbers appear in the order of their first appearance in the input, as a Set's insertion order does. |
| `StrategyEngine.FindFollowers` | services/StrategyEngine.ts:34-47 | The scan, with its early-exit compare loop, records exactly the followers of the sequence in history order. |
| `StrategyEngine.CountByLine` | services/StrategyEngine.ts:56-62 | The forEach loop builds exactly the per-line tally. |
| `StrategyEngine.SearchDeepest` | services/StrategyEngine.ts:26-51 | The step-down loop stops at the chosen depth with that depth's followers, or at 0 with no matches. |
| `StrategyEngine.Outcome` | services/StrategyEngine.ts:53-85 | Definition: the result record for a depth and its followers, null when no line was hit. The contract states a result keeps that depth and suggests one or two lines. |
| `StrategyEngine.Analyze` | services/StrategyEngine.ts:18-86 | The specification of the engine as a function. A result has a depth in 1..min(recent spins, 5) and one or two suggested lines; the Analyze* lemmas state the rest. |
| `StrategyEngine.AnalyzeStrategy` | services/StrategyEngine.ts:18-86 | The procedure returns exactly the result that `Analyze` specifies. |
| `StrategyEngine.AnalyzeNone` | services/StrategyEngine.ts:23-72 | The result is null exactly when the history is empty, there are no recent spins, the last spin never occurs in the history with a follower, or every number that followed the chosen suffix is off the 1..36 board. |
| `StrategyEngine.AnalyzeLevel` | services/StrategyEngine.ts:26-51 | A result's level is between 1 and min(recent spins, 5). The suffix of that length occurs with a follower, and no longer suffix within the cap does. |
| `StrategyEngine.AnalyzeFoundNumbers` | services/StrategyEngine.ts:36-84 | `patternMatches` is the number of occurrences of the chosen suffix, at least one. `foundNumbers` are exactly the numbers that followed an occurrence, without repeats, in order of first appearance. |
| `StrategyEngine.AnalyzeSuggestedLines` | services/StrategyEngine.ts:56-72 | A result suggests one or two distinct lines, each hit by the followers. Every hit line is suggested when fewer than two are. No unsuggested line beats a suggested one on count, or ties it with a smaller id. |
| `StrategyEngine.AnalyzeSuggestedNumbers` | services/StrategyEngine.ts:74-83 | A result's numbers are strictly ascending, are exactly the numbers 1..36 on a suggested line, and number six per suggested line. |
| `StrategyEngine.ExampleTwoOccurrences` | services/StrategyEngine.ts:18-86 | History 1 2 3 1 2 9 with recent spins 1 2 gives level 2, 2 matches, lines 1 and 2, numbers 1..12 and found numbers 3, 9. |
| `StrategyEngine.ExampleNoFollower` | services/StrategyEngine.ts:36-53 | A spin seen only as the history's final entry has no follower, so the result is null. |
| `StrategyEngine.ExampleOverlappingRun` | services/StrategyEngine.ts:36-46 | History 1 1 1 1 with recent spins 1 1 1 gives level 3 with a single match, since only the occurrence at index 0 leaves room for a follower; line 1 and its numbers are suggested. |
| `StrategyEngine.TieFavoursLinesOneAndTwo` | services/StrategyEngine.ts:64-70 | When lines 1 and 2 are hit once each, line 3 at most once and lines 4 to 6 not at all, the stable sort keeps lines 1 and 2. |
| `StrategyEngine.ExampleTie` | services/StrategyEngine.ts:64-70 | Followers 2, 8, 14 (one hit on each of lines 1, 2, 3) suggest lines 1 and 2. |

## Left out

- `App.tsx` is not part of this model. That covers the user interface and its state: the 12-spin window, undo, the record of previous suggestions, and the red/black colouring with `RED_NUMBERS`. It is presentation and browser state around the engine.
- `NumberInput.ToNumber`: converts only tokens made of decimal digits. JavaScript's `Number` also accepts a sign, a fraction, an exponent, `0x`/`0o`/`0b` prefixes and `Infinity`, and rounds to a double. The model drops such tokens, while the source keeps them (for example `-3` or `1.5`). Floating point is outside the model.
- `NumberInput.ParseNumberInput`: for the same reason, it agrees with the source only on input whose tokens are decimal digits or are not numbers at all.
- Spins are integers throughout. The engine compares JavaScript numbers with `!==`; NaN and fractional values, which only non-decimal input can produce, are not modelled.
- `Object.entries` over the tally is modelled as a scan of the ids 1..6 in ascending order. This matches how integer keys are enumerated, and the tally's keys are proved to lie in 1..6. `parseInt` of such a key is the key itself.
- Both sorts are modelled by insertion sorts. The count sort is stable, as `Array.prototype.sort` has been required to be since ES2019, so its result is the one every stable sort gives. The ascending numeric sort has a unique result.
- The corner catalog (`CORNERS`) and the `CORNER` bet type are declared but not used by the engine. Only their layout is modelled.
- The mismatch between the declared result (`suggestedIds`, `betType`) and the built one (`suggestedLines`, no `betType`) is recorded, not resolved: both shapes are kept as separate datatypes.
- The `name` strings of the catalogs are carried as data; nothing is proved about them.
