# Credit scoring engine, modelled in Dafny

This project models the two credit calculators of the message-usage service.
`calculate_credits_pytorch` is a tensor implementation and
`calculate_credits_pandas` a data-frame one. Each has a batch executor that
splits a list of messages into contiguous chunks of `batch_size`, scores each
chunk and concatenates the results in chunk order.

Every cost is an integer number of hundredths of a credit:

| item | hundredths |
|---|---|
| base | 100 |
| per character | 5 |
| word of length 1–3 / 4–7 / ≥ 8 | 10 / 20 / 30 |
| vowel at a 1-based position divisible by 3 | 30 |
| message longer than 100 characters | 500 |
| no token repeats | -200 |
| floor | 100 |
| cleaned text a palindrome | the floored total doubled |

The model has six modules:

- `Text` models the regular-expression and string pieces, with ASCII character classes.
  - `Tokens` is `re.findall(r"\b\w+\b", s)`, the maximal runs of `[A-Za-z0-9_]`.
  - `Cleaned` is `re.sub(r"[^a-zA-Z0-9]", "", s).lower()`.
  - `Reverse` and `IsPalindrome` are `t[::-1]` and `t == t[::-1]`.
  - The lemmas prove how these behave: for example, the tokens of a text built from words and separator runs are exactly those words.
- `Scoring` holds `Score`, the per-message formula both back ends compute. The lemmas prove several rules against an independent statement:
  - the vowel rule against the set of charged positions;
  - the bonus test `len(words) == len(set(words))` against "no two tokens are equal";
  - the floor coming before the doubling.
- `Batching` models Python's slicing `[xs[i:i+n] for i in range(0, len(xs), n)]` and the concatenation done by repeated `extend`. Its lemma proves that for every positive batch size the concatenated chunk scores are the message-by-message scores.
- `PytorchBackend` follows the imperative form of the tensor code:
  - `WordCosts`: nested loops accumulate the word cost, proved equal to `Scoring.WordCost` for each message;
  - `CalculateCredits`: an `array` is floored and then doubled in place by `MultiplyInPlace`, which states the new value of every entry; the result is proved equal to `Scoring.ScoreAll`;
  - `CalculateCreditsBatch`: a loop over the batches extends the result list in order, proved equal to `Scoring.ScoreAll`.
- `PandasBackend` follows the column chain of the data-frame code. Each column is a sequence computed row by row, and the word-cost lambda keeps its own `else 0.3` branch. The lemmas prove:
  - this back end agrees with `Scoring`, and therefore with the tensor back end;
  - the two token-cost tables differ only on length 0, a length no token has;
  - no row depends on another.
  The batch executor is a `while` loop that slices and extends.
- `Scenarios` restates the literal cases of the unit tests as theorems, for example `Score("What is the rent?") == 105`. It also proves that both executors return [2, 1.05, 3.75, 18.7, 1] on the batch test for batch sizes 2 and 10.

## Model

| member | source | states |
|---|---|---|
| Text.IsAlnum | src/processing_pytorch.py:51 | no contract; defines the class `[a-zA-Z0-9]` kept by the cleaning filter |
| Text.IsWordChar | src/processing_pytorch.py:15 | no contract; defines `\w` as the ASCII letters, digits and `_` |
| Text.IsVowel | src/processing_pytorch.py:30-32 | no contract; defines membership in `vowels = "aeiouAEIOU"` |
| Text.WordRun | src/processing_pytorch.py:15 | the length of the longest word-character prefix: every character before it is a word character, and the one at it (if any) is not |
| Text.Tokens | src/processing_pytorch.py:15 | every token `\b\w+\b` finds is a non-empty run of word characters |
| Text.WordRunStops | src/processing_pytorch.py:15 | a word run ends at the first non-word character whatever follows it |
| Text.TokensSplit | src/processing_pytorch.py:15 | a non-word character separates tokens: the tokens of `a + [c] + b` are those of `a` followed by those of `b` |
| Text.TokensOfWord | src/processing_pytorch.py:15 | a text that is one run of word characters is its single token |
| Text.TokensSkip | src/processing_pytorch.py:15 | a leading non-word character yields no token |
| Text.TokensSkipAll | src/processing_pytorch.py:15 | a leading run of non-word characters yields no token |
| Text.TokensOfWordThen | src/processing_pytorch.py:15 | a word followed by a non-empty separator run is one token, whatever comes after |
| Text.TokensOfJoin | src/processing_pytorch.py:15 | tokens are the maximal word runs: a text of words separated by non-empty non-word runs tokenizes back to exactly those words, in order |
| Text.TokensEmptyIff | src/processing_pytorch.py:15 | a text has no tokens exactly when it has no word character |
| Text.KeepAlnum | src/processing_pytorch.py:51 | the filter keeps only ASCII letters and digits (the underscore is dropped although `\w` counts it) and never lengthens the text |
| Text.LowerChar | src/processing_pytorch.py:51 | an upper-case ASCII letter becomes the letter 32 code points further on, which is lower-case; every other character is unchanged |
| Text.Lower | src/processing_pytorch.py:51 | `.lower()` maps each character in place and keeps the length |
| Text.AlnumPositionsSnoc | src/processing_pytorch.py:51 | appending a character adds its position to the alphanumeric ones exactly when it is a letter or digit |
| Text.KeepAlnumDrops | src/processing_pytorch.py:51 | a character outside `[a-zA-Z0-9]` is removed wherever it stands |
| Text.KeepAlnumKeeps | src/processing_pytorch.py:51 | a character in `[a-zA-Z0-9]` is kept in its place |
| Text.KeepAlnumLength | src/processing_pytorch.py:51 | the filtered text has exactly one character per alphanumeric position of the message |
| Text.Cleaned | src/processing_pytorch.py:51 | the cleaned text is no longer than the message and consists of lower-case letters and digits only |
| Text.KeepAlnumAppend | src/processing_pytorch.py:51 | the filter works character by character: it distributes over concatenation |
| Text.CleanedAppend | src/processing_pytorch.py:51 | cleaning distributes over concatenation |
| Text.CleanedDrops | src/processing_pytorch.py:51 | cleaning removes every character outside `[a-zA-Z0-9]`, wherever it stands |
| Text.CleanedLowers | src/processing_pytorch.py:51 | cleaning keeps every letter or digit in its place, lower-cased |
| Text.CleanedFixes | src/processing_pytorch.py:51 | a text that is already lower-case alphanumeric is unchanged by cleaning |
| Text.CleanedIdempotent | src/processing_pytorch.py:51 | cleaning twice is cleaning once |
| Text.Reverse | src/processing_pytorch.py:52 | no contract; defines `text[::-1]` as the character at the mirror index |
| Text.IsPalindrome | src/processing_pytorch.py:52 | no contract; defines `text == text[::-1]` |
| Text.PalindromeIff | src/processing_pytorch.py:52 | `text == text[::-1]` holds exactly when every character equals its mirror image |
| Text.NotPalindromeByEnds | src/processing_pytorch.py:51-52 | if the cleaned head of a message is not the reversed cleaned tail of the same length, the cleaned message is no palindrome |
| Text.RepeatIsPalindrome | src/processing_pytorch.py:52 | a run of one repeated character is a palindrome |
| Scoring.TokenCost | src/processing_pytorch.py:20-25 | no contract; defines a token's cost by the `if / elif / elif` chain, which has no `else` and so charges nothing for length 0 |
| Scoring.WordCost | src/processing_pytorch.py:17-26 | the word cost of a token list is between 0.1 and 0.3 per token when every token is a word, and never negative |
| Scoring.WordCostCons | src/processing_pytorch.py:19-25 | the left-to-right sum also decomposes at its first token |
| Scoring.WordCostShort | src/processing_pytorch.py:20-21 | a list of words of length 1–3 costs exactly 0.1 per word |
| Scoring.ThirdVowelCount | src/processing_pytorch.py:30-34 | the vowel rule charges at most one in three characters |
| Scoring.ThirdVowelPositionsSnoc | src/processing_pytorch.py:32 | appending a character adds its position to the charged set exactly when it is a vowel at a position divisible by 3 |
| Scoring.ThirdVowelCountIsPositions | src/processing_pytorch.py:32 | the count is the number of 1-based positions `i` with `i % 3 == 0` that hold a character of "aeiouAEIOU" |
| Scoring.ThirdVowelCountIsEveryThird | src/processing_pytorch.py:32 | the count is the number of vowels among the characters at positions 3, 6, 9, ... |
| Scoring.ThirdVowelCountNoVowels | src/processing_pytorch.py:32 | a text without vowels costs nothing under the vowel rule |
| Scoring.ThirdVowelCountAppend | src/processing_pytorch.py:32 | after a prefix whose length is a multiple of 3, the rest is charged as if it stood alone |
| Scoring.LengthPenalty | src/processing_pytorch.py:38 | the penalty is 5 exactly when the message is longer than 100 characters, and 0 exactly when it is not |
| Scoring.AllDistinct | src/processing_pytorch.py:41-44 | no contract; defines the test `len(words) == len(set(words))` |
| Scoring.UniqueBonus | src/processing_pytorch.py:41-44 | no contract; defines the bonus as -2 when that test holds and 0 otherwise |
| Scoring.AllDistinctIff | src/processing_pytorch.py:41-44 | `len(words) == len(set(words))` holds exactly when no two tokens are equal (case-sensitively), and the set is never larger than the list |
| Scoring.UniqueBonusIff | src/processing_pytorch.py:41-44 | the bonus of -2 is granted exactly when no token repeats, and 0 is added exactly when some token occurs twice |
| Scoring.RawTotal | src/processing_pytorch.py:47 | no contract; defines the six-part sum before the floor |
| Scoring.Floored | src/processing_pytorch.py:47-48 | the floored total is at least 1 and at least the six-part sum, and is one of the two |
| Scoring.Score | src/processing_pytorch.py:47-53 | every cost is at least 1, and at least 2 when the cleaned text is a palindrome |
| Scoring.ScoreDoubling | src/processing_pytorch.py:48-53 | the floor comes before the doubling: the cost is twice the floored total exactly for palindromes, and the floored total otherwise |
| Scoring.ScoreAll | src/processing_pytorch.py:8-55 | one cost per message, each at least 1 |
| Scoring.ScoreAllAppend | src/processing_pytorch.py:8-55 | there is no state across messages: scoring a concatenation of lists scores each list |
| Batching.Chunks | src/processing_pytorch.py:65 | no contract; defines `[messages[i:i + batch_size] for i in range(0, len(messages), batch_size)]` as the chunks from index 0 |
| Batching.Flatten | src/processing_pytorch.py:66-67 | no contract; defines the list built by repeated `results.extend(batch_result)` |
| Batching.ChunksFrom | src/processing_pytorch.py:65 | every chunk of `messages[i:i + batch_size]` is non-empty and has at most `batch_size` messages |
| Batching.ChunksFromFull | src/processing_pytorch.py:65 | every chunk but the last has exactly `batch_size` messages |
| Batching.FlattenAppend | src/processing_pytorch.py:66-67 | extending by the results of two runs of chunks is extending by each in turn |
| Batching.ChunksFromCover | src/processing_pytorch.py:65 | the chunks from index `i` on, concatenated, are the list from `i` on |
| Batching.ChunksCover | src/processing_pytorch.py:65 | chunking loses, reorders and duplicates no message |
| Batching.FlattenScoreEach | src/processing_pytorch.py:66-67 | concatenating the per-chunk scores is scoring the concatenated chunks |
| Batching.ChunkedScoresAgree | src/processing_pytorch.py:63-68 | for every positive batch size, the concatenated chunk scores are the message-by-message scores |
| Batching.BatchSizeIrrelevant | tests/test_calculations.py:55-70 | any two positive batch sizes give the same result list |
| PytorchBackend.WordCosts | src/processing_pytorch.py:16-26 | the nested loop appends, for each token list in order, the sum of its token costs by the `if / elif / elif` chain |
| PytorchBackend.MultiplyInPlace | src/processing_pytorch.py:53 | `total_cost *= factor` multiplies each entry by its factor in place and touches nothing else |
| PytorchBackend.CalculateCredits | src/processing_pytorch.py:6-55 | one cost per message, in input order, each equal to the reference score |
| PytorchBackend.CalculateCreditsBatch | src/processing_pytorch.py:59-68 | the results extended batch by batch, in submission order, are the concatenated chunk scores and equal the message-by-message scores |
| PandasBackend.LambdaTokenCost | src/processing_pandas.py:17 | no contract; defines the lambda's cost with its `else 0.3`, which also takes length 0 |
| PandasBackend.RowWordCost | src/processing_pandas.py:17 | no contract; defines the generator `sum(...)` over a row's tokens, left to right |
| PandasBackend.TokenCostAgrees | src/processing_pandas.py:17 | the lambda's cost agrees with the `if / elif / elif` chain on every length of at least 1 |
| PandasBackend.TokenCostDiffersOnEmpty | src/processing_pandas.py:17 | on length 0 the lambda's `else` branch charges 0.3 where the chain charges nothing |
| PandasBackend.WordCostAgrees | src/processing_pandas.py:16-17 | on any list of non-empty word tokens the two word-cost sums are equal |
| PandasBackend.CalculateCredits | src/processing_pandas.py:5-39 | the column chain returns one cost per message |
| PandasBackend.CalculateCreditsAgrees | src/processing_pandas.py:8-37 | row by row, the data-frame cost is the reference score, and therefore equals the tensor back end's cost |
| PandasBackend.RowsAreIndependent | src/processing_pandas.py:12-37 | costing a concatenation of frames costs each frame, and a row costs the same alone as inside any list |
| PandasBackend.CalculateCreditsBatch | src/processing_pandas.py:42-47 | the loop stepping by `batch_size` and extending by each slice's costs returns the concatenated chunk scores, equal to the message-by-message scores |
| Scenarios.ScoreDash | tests/test_calculations.py:9-10 | "-" costs 2: the empty cleaned text is a palindrome |
| Scenarios.NotPalindromeWt | src/processing_pytorch.py:51-53 | a message starting with "W" and ending with "t?" is never doubled, whatever lies between |
| Scenarios.ScoreRent | tests/test_calculations.py:14-15 | "What is the rent?" costs 1.05 |
| Scenarios.ScoreRepeat | tests/test_calculations.py:18-19 | "What is is the rent?" costs 3.6: the repeated "is" loses the bonus |
| Scenarios.NotPalindromeVowels | src/processing_pytorch.py:51-53 | "--a -i -a -a -a" and "-a- i- a- a- a-" clean to texts that start with "ai" and end with "aa", so neither is doubled |
| Scenarios.ScoreOfVowelWords | tests/test_calculations.py:23-28 | a 15-character message with the tokens a, i, a, a, a that is not doubled costs 2.25 plus 0.3 per vowel at a third position |
| Scenarios.ScoreThirdVowels | tests/test_calculations.py:23-24 | "--a -i -a -a -a" costs 3.75: five vowels at positions 3, 6, 9, 12 and 15 |
| Scenarios.ScoreShiftedVowels | tests/test_calculations.py:27-28 | "-a- i- a- a- a-" costs 2.25: the same tokens with no vowel at a third position |
| Scenarios.ScoreZRun | tests/test_calculations.py:30-34 | `"z" * n + "-"` for n ≥ 33 costs the doubled sum of its parts, with the penalty exactly when n ≥ 100 |
| Scenarios.LengthPenaltyBoundary | tests/test_calculations.py:32-34 | the 100-character message `"z" * 99 + "-"` costs 8.6 with no penalty, and `"z" * 100 + "-"` costs 18.7 |
| Scenarios.ScoreAz | tests/test_calculations.py:38-39 | "az" costs 1: floored and not doubled |
| Scenarios.ScoreA | tests/test_calculations.py:42-43 | "a" costs 2: floored and doubled |
| Scenarios.ScoreAllBatch | tests/test_calculations.py:47-54 | the five batch-test messages score [2, 1.05, 3.75, 18.7, 1] |
| Scenarios.BatchScenario | tests/test_calculations.py:45-70 | both executors with batch sizes 2 and 10 return [2, 1.05, 3.75, 18.7, 1] |

## Left out

- Floating point: both back ends compute in `float32` tensors or `float64` columns. The model computes exactly in integer hundredths, which are the values the costs are meant to have. The tests compare either with `assertAlmostEqual` to 4 places (tests/test_calculations.py:14-24, 33-34, 55-70) or with exact `assertEqual` (lines 9-10, 27-28, 38-43); in both cases the expected value is the decimal one the hundredths state.
- Text.Tokens: its word characters are the ASCII letters, digits and `_`, while Python's `\w` on a `str` also matches every Unicode letter and digit. On messages with non-ASCII letters the model's tokens, and so its word cost and bonus, differ from the source's: for "é é" the model finds no token (cost 2), the source finds the repeated token "é" (cost 2.7). No precondition excludes such messages. The other text operations need no restriction: `len` counts code points on both sides, `[^a-zA-Z0-9]` is an ASCII class in the source too, and `.lower()` only sees ASCII letters and digits after it.
- Concurrency: the tensor executor runs the batches on a thread pool. `executor.map` yields results in submission order, so the model scores the batches one after another in that order.
- Batch sizes of 0 or less are excluded by a precondition. Python's `range` raises on a step of 0 and yields nothing on a negative step.
- The default argument `batch_size=100` is not modelled: the batch size is always passed explicitly.
- The HTTP service in src/app.py is I/O around the scorer and is not part of this model: the endpoint, the report fetching, the retry-with-backoff helper and the merging of report costs.
- tests/compare_performance.py only measures timing and tests/test_app.py tests the HTTP layer with mocks; neither is modelled.
- The tensor arithmetic in `PytorchBackend.CalculateCredits` is modelled as follows:
  - the elementwise sum is the initialiser of a new `array`;
  - `torch.maximum` is a parallel `forall` assignment to that array;
  - the other per-message columns are sequence comprehensions.
- PandasBackend.CalculateCredits: its own contract states only that there is one cost per message. The row-by-row equality with the reference score is the separate lemma `PandasBackend.CalculateCreditsAgrees`, and the floor and palindrome bounds follow from `Scoring.Score`.
