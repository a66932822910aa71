/** The data-frame back end: every cost column is built by applying a
    per-row expression to a column of the same length, so no row's cost can
    depend on another row; the batch executor slices the list in a loop and
    extends a result list with each slice's costs. */
module PandasBackend {
  import opened Text
  import opened Scoring
  import opened Batching

  /** The token-cost lambda `0.1 if 1 <= len(word) <= 3 else 0.2 if
      4 <= len(word) <= 7 else 0.3`: its last branch also takes length 0. */
  function LambdaTokenCost(len: nat): int {
    if 1 <= len <= 3 then ShortWordCost
    else if 4 <= len <= 7 then MediumWordCost
    else LongWordCost
  }

  /** The generator sum over a row's tokens, left to right. */
  function RowWordCost(words: seq<string>): int {
    if words == [] then 0 else LambdaTokenCost(|words[0]|) + RowWordCost(words[1..])
  }

  /** The two token-cost tables agree on every length a token can have. */
  lemma TokenCostAgrees(len: nat)
    requires len >= 1
    ensures LambdaTokenCost(len) == Scoring.TokenCost(len)
  {
  }

  /** They differ on the one length no `\w+` match has. */
  lemma TokenCostDiffersOnEmpty()
    ensures LambdaTokenCost(0) == LongWordCost && Scoring.TokenCost(0) == 0
  {
  }

  /** On lists of word tokens the two word-cost sums agree; this is why the
      two back ends agree despite their different token-cost tables. */
  lemma {:induction false} WordCostAgrees(words: seq<string>)
    requires forall k :: 0 <= k < |words| ==> IsWord(words[k])
    ensures RowWordCost(words) == Scoring.WordCost(words)
    decreases |words|
  {
    if words != [] {
      WordCostAgrees(words[1..]);
      assert words == [words[0]] + words[1..];
      Scoring.WordCostCons(words[0], words[1..]);
      TokenCostAgrees(|words[0]|);
    }
  }

  /** The costs of a list of messages, column by column. */
  function CalculateCredits(messageTexts: seq<string>): (totalCost: seq<int>)
    ensures |totalCost| == |messageTexts|
  {
    var n := |messageTexts|;
    var baseCost := seq(n, _ => BaseCost);
    var charCount := seq(n, i requires 0 <= i < n => |messageTexts[i]|);
    var charCost := seq(n, i requires 0 <= i < n => CharCost * charCount[i]);
    var words := seq(n, i requires 0 <= i < n => Tokens(messageTexts[i]));
    var wordCost := seq(n, i requires 0 <= i < n => RowWordCost(words[i]));
    var thirdVowelCount := seq(n, i requires 0 <= i < n => ThirdVowelCount(messageTexts[i]));
    var vowelCost := seq(n, i requires 0 <= i < n => ThirdVowelCost * thirdVowelCount[i]);
    var lengthPenalty := seq(n, i requires 0 <= i < n =>
      if charCount[i] > LengthLimit then LengthPenaltyCost else 0);
    var uniqueWordBonus := seq(n, i requires 0 <= i < n =>
      if AllDistinct(words[i]) then UniqueWordBonus else 0);
    var summed := seq(n, i requires 0 <= i < n =>
      baseCost[i] + charCost[i] + wordCost[i] + vowelCost[i] + lengthPenalty[i] + uniqueWordBonus[i]);
    var floored := seq(n, i requires 0 <= i < n =>
      if summed[i] > MinimumCost then summed[i] else MinimumCost);
    var cleanedText := seq(n, i requires 0 <= i < n => Cleaned(messageTexts[i]));
    var isPalindrome := seq(n, i requires 0 <= i < n => IsPalindrome(cleanedText[i]));
    seq(n, i requires 0 <= i < n => if isPalindrome[i] then floored[i] * 2 else floored[i])
  }

  /** Row by row, the data-frame costs are the reference scores. */
  lemma CalculateCreditsAgrees(messageTexts: seq<string>)
    ensures CalculateCredits(messageTexts) == ScoreAll(messageTexts)
  {
    forall i | 0 <= i < |messageTexts|
      ensures CalculateCredits(messageTexts)[i] == Score(messageTexts[i])
    {
      WordCostAgrees(Tokens(messageTexts[i]));
    }
  }

  /** No cross-row state: costing a concatenation of two frames costs each
      of them, and a row costs the same alone as inside any list. */
  lemma RowsAreIndependent(a: seq<string>, b: seq<string>)
    ensures CalculateCredits(a + b) == CalculateCredits(a) + CalculateCredits(b)
    ensures forall i :: 0 <= i < |a| ==> CalculateCredits(a)[i] == CalculateCredits([a[i]])[0]
  {
    CalculateCreditsAgrees(a + b);
    CalculateCreditsAgrees(a);
    CalculateCreditsAgrees(b);
    ScoreAllAppend(a, b);
    forall i | 0 <= i < |a|
      ensures CalculateCredits(a)[i] == CalculateCredits([a[i]])[0]
    {
      CalculateCreditsAgrees([a[i]]);
    }
  }

  /** The sequential batch loop over `range(0, len(messages), batch_size)`. */
  method CalculateCreditsBatch(messages: seq<string>, batchSize: nat) returns (results: seq<int>)
    requires batchSize > 0
    ensures results == Flatten(ScoreEach(Chunks(messages, batchSize)))
    ensures results == ScoreAll(messages)
  {
    results := [];
    var i := 0;
    while i < |messages|
      invariant results + Flatten(ScoreEach(ChunksFrom(messages, i, batchSize)))
             == Flatten(ScoreEach(Chunks(messages, batchSize)))
      decreases |messages| - i
    {
      var batch := messages[i..Min(i + batchSize, |messages|)];
      var rest := ChunksFrom(messages, i + batchSize, batchSize);
      assert ChunksFrom(messages, i, batchSize) == [batch] + rest;
      assert ScoreEach([batch] + rest) == [ScoreAll(batch)] + ScoreEach(rest);
      CalculateCreditsAgrees(batch);
      results := results + CalculateCredits(batch);
      i := i + batchSize;
    }
    assert ChunksFrom(messages, i, batchSize) == [];
    ChunkedScoresAgree(messages, batchSize);
  }
}
