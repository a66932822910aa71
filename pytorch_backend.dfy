/** The tensor back end: the whole list of messages is scored column by
    column, the word costs by a nested loop, the palindrome doubling by an
    in-place update of the cost tensor; the batch executor scores contiguous
    chunks and extends a result list with each chunk's costs, in chunk order. */
module PytorchBackend {
  import opened Text
  import opened Scoring
  import opened Batching

  /** The nested accumulation loop: for each token list, the sum of its token
      costs by the `if / elif / elif` chain. */
  method WordCosts(wordsList: seq<seq<string>>) returns (wordCosts: seq<int>)
    ensures |wordCosts| == |wordsList|
    ensures forall m :: 0 <= m < |wordsList| ==> wordCosts[m] == WordCost(wordsList[m])
  {
    wordCosts := [];
    for m := 0 to |wordsList|
      invariant |wordCosts| == m
      invariant forall p :: 0 <= p < m ==> wordCosts[p] == WordCost(wordsList[p])
    {
      var words := wordsList[m];
      var wordCost := 0;
      for k := 0 to |words|
        invariant wordCost == WordCost(words[..k])
      {
        var len := |words[k]|;
        if 1 <= len <= 3 {
          wordCost := wordCost + ShortWordCost;
        } else if 4 <= len <= 7 {
          wordCost := wordCost + MediumWordCost;
        } else if len >= 8 {
          wordCost := wordCost + LongWordCost;
        }
        assert words[..k + 1][..k] == words[..k];
      }
      assert words[..|words|] == words;
      wordCosts := wordCosts + [wordCost];
    }
  }

  /** The costs of a list of messages, one per message and in order. */
  method CalculateCredits(messages: seq<string>) returns (costs: seq<int>)
    ensures |costs| == |messages|
    ensures costs == ScoreAll(messages)
  {
    var n := |messages|;
    var charCount := seq(n, i requires 0 <= i < n => |messages[i]|);
    var charCost := seq(n, i requires 0 <= i < n => CharCost * charCount[i]);
    var wordsList := seq(n, i requires 0 <= i < n => Tokens(messages[i]));
    var wordCost := WordCosts(wordsList);
    var thirdVowelCounts := seq(n, i requires 0 <= i < n => ThirdVowelCount(messages[i]));
    var vowelCost := seq(n, i requires 0 <= i < n => ThirdVowelCost * thirdVowelCounts[i]);
    var lengthPenalty := seq(n, i requires 0 <= i < n =>
      if |messages[i]| > LengthLimit then LengthPenaltyCost else 0);
    var uniqueWordBonus := seq(n, i requires 0 <= i < n =>
      if AllDistinct(wordsList[i]) then UniqueWordBonus else 0);

    var totalCost := new int[n](i requires 0 <= i < n =>
      BaseCost + charCost[i] + wordCost[i] + vowelCost[i] + lengthPenalty[i] + uniqueWordBonus[i]);
    forall p | 0 <= p < n
      ensures totalCost[p] == RawTotal(messages[p])
    {
      assert wordCost[p] == WordCost(Tokens(messages[p]));
    }
    forall i | 0 <= i < n {
      totalCost[i] := if totalCost[i] > MinimumCost then totalCost[i] else MinimumCost;
    }
    assert forall p :: 0 <= p < n ==> totalCost[p] == Floored(messages[p]);

    var cleanedTexts := seq(n, i requires 0 <= i < n => Cleaned(messages[i]));
    var isPalindrome := seq(n, i requires 0 <= i < n => if IsPalindrome(cleanedTexts[i]) then 1 else 0);
    MultiplyInPlace(totalCost, seq(n, i requires 0 <= i < n => 1 + isPalindrome[i]));
    forall p | 0 <= p < n
      ensures totalCost[p] == Score(messages[p])
    {
      if IsPalindrome(Cleaned(messages[p])) {
        assert totalCost[p] == Floored(messages[p]) * 2;
      } else {
        assert totalCost[p] == Floored(messages[p]) * 1;
      }
    }
    costs := totalCost[..];
  }

  /** `total_cost *= factor`: an elementwise update of the cost tensor in
      place. */
  method MultiplyInPlace(totalCost: array<int>, factor: seq<int>)
    requires totalCost.Length == |factor|
    modifies totalCost
    ensures forall p :: 0 <= p < totalCost.Length ==> totalCost[p] == old(totalCost[p]) * factor[p]
  {
    for i := 0 to totalCost.Length
      invariant forall p :: 0 <= p < i ==> totalCost[p] == old(totalCost[p]) * factor[p]
      invariant forall p :: i <= p < totalCost.Length ==> totalCost[p] == old(totalCost[p])
    {
      totalCost[i] := totalCost[i] * factor[i];
    }
  }

  /** The batch executor: the chunk results, extended in submission order,
      are the message-by-message scores whatever the batch size. */
  method CalculateCreditsBatch(messages: seq<string>, batchSize: nat) returns (results: seq<int>)
    requires batchSize > 0
    ensures results == Flatten(ScoreEach(Chunks(messages, batchSize)))
    ensures results == ScoreAll(messages)
  {
    results := [];
    var batches := Chunks(messages, batchSize);
    for k := 0 to |batches|
      invariant results == Flatten(ScoreEach(batches[..k]))
    {
      var batchResult := CalculateCredits(batches[k]);
      assert ScoreEach(batches[..k + 1]) == ScoreEach(batches[..k]) + [ScoreAll(batches[k])];
      FlattenAppend(ScoreEach(batches[..k]), [ScoreAll(batches[k])]);
      results := results + batchResult;
    }
    assert batches[..|batches|] == batches;
    ChunkedScoresAgree(messages, batchSize);
  }
}
