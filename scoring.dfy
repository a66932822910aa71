/** The per-message credit formula, in integer hundredths of a credit.
    Both back ends compute this function; it is the one definition the rest
    of the model is proved against. */
module Scoring {
  import opened Text

  const BaseCost: int := 100
  const CharCost: int := 5
  const ShortWordCost: int := 10
  const MediumWordCost: int := 20
  const LongWordCost: int := 30
  const ThirdVowelCost: int := 30
  const LengthLimit: nat := 100
  const LengthPenaltyCost: int := 500
  const UniqueWordBonus: int := -200
  const MinimumCost: int := 100

  /** The cost of one token, by the `if / elif / elif` chain on its length:
      a length that no branch takes (only 0) adds nothing. */
  function TokenCost(len: nat): int {
    if 1 <= len <= 3 then ShortWordCost
    else if 4 <= len <= 7 then MediumWordCost
    else if len >= 8 then LongWordCost
    else 0
  }

  /** The word cost: the token costs summed left to right. Every word token
      costs between 0.1 and 0.3. */
  function WordCost(words: seq<string>): (c: int)
    ensures 0 <= c <= 30 * |words|
    ensures (forall k :: 0 <= k < |words| ==> IsWord(words[k])) ==> c >= 10 * |words|
  {
    if words == [] then 0
    else WordCost(words[..|words| - 1]) + TokenCost(|words[|words| - 1]|)
  }

  /** The word cost also sums from the left. */
  lemma {:induction false} WordCostCons(w: string, rest: seq<string>)
    ensures WordCost([w] + rest) == TokenCost(|w|) + WordCost(rest)
    decreases |rest|
  {
    if rest != [] {
      var init := rest[..|rest| - 1];
      assert ([w] + rest)[..|rest|] == [w] + init;
      WordCostCons(w, init);
    } else {
      assert [w] + rest == [w];
      assert [w][..0] == [];
    }
  }

  /** Words of one to three characters cost 0.1 each. */
  lemma {:induction false} WordCostShort(words: seq<string>)
    requires forall k :: 0 <= k < |words| ==> 1 <= |words[k]| <= 3
    ensures WordCost(words) == ShortWordCost * |words|
    decreases |words|
  {
    if words != [] {
      WordCostShort(words[..|words| - 1]);
    }
  }

  /** The number of 1-based positions `i` with `i % 3 == 0` whose character
      is a vowel, counted left to right: `sum(1 for i, c in enumerate(s, 1)
      if c in vowels and i % 3 == 0)`. At most every third character counts. */
  function ThirdVowelCount(s: string): (n: nat)
    ensures n <= |s| / 3
  {
    if s == [] then 0
    else
      ThirdVowelCount(s[..|s| - 1]) + (if IsVowel(s[|s| - 1]) && |s| % 3 == 0 then 1 else 0)
  }

  /** The positions the vowel rule charges for, as a set. */
  ghost function ThirdVowelPositions(s: string): set<int> {
    set i | 1 <= i <= |s| && i % 3 == 0 && IsVowel(s[i - 1])
  }

  /** Extending a text by one character adds its position to the charged
      ones exactly when the rule charges it. */
  lemma ThirdVowelPositionsSnoc(s: string)
    requires s != []
    ensures ThirdVowelPositions(s) == ThirdVowelPositions(s[..|s| - 1])
      + (if IsVowel(s[|s| - 1]) && |s| % 3 == 0 then {|s|} else {})
    ensures |s| !in ThirdVowelPositions(s[..|s| - 1])
  {
    var init := s[..|s| - 1];
    var last := if IsVowel(s[|s| - 1]) && |s| % 3 == 0 then {|s|} else {};
    forall i | i in ThirdVowelPositions(s)
      ensures i in ThirdVowelPositions(init) + last
    {
      if i < |s| { assert init[i - 1] == s[i - 1]; }
    }
    forall i | i in ThirdVowelPositions(init)
      ensures i in ThirdVowelPositions(s)
    {
      assert init[i - 1] == s[i - 1];
    }
  }

  /** The counting loop counts exactly the charged positions. */
  lemma {:induction false} ThirdVowelCountIsPositions(s: string)
    ensures ThirdVowelCount(s) == |ThirdVowelPositions(s)|
    decreases |s|
  {
    if s != [] {
      ThirdVowelCountIsPositions(s[..|s| - 1]);
      ThirdVowelPositionsSnoc(s);
    }
  }

  /** A text without vowels is charged nothing by the vowel rule. */
  lemma {:induction false} ThirdVowelCountNoVowels(s: string)
    requires forall i :: 0 <= i < |s| ==> !IsVowel(s[i])
    ensures ThirdVowelCount(s) == 0
    decreases |s|
  {
    if s != [] {
      ThirdVowelCountNoVowels(s[..|s| - 1]);
    }
  }

  /** The characters at 1-based positions 3, 6, 9, ... */
  function EveryThird(s: string): (t: string)
    ensures |t| == |s| / 3
  {
    seq(|s| / 3, j requires 0 <= j < |s| / 3 => s[3 * j + 2])
  }

  /** The number of vowels in a text. */
  function VowelCount(s: string): nat {
    if s == [] then 0 else (if IsVowel(s[0]) then 1 else 0) + VowelCount(s[1..])
  }

  lemma {:induction false} VowelCountAppend(a: string, b: string)
    ensures VowelCount(a + b) == VowelCount(a) + VowelCount(b)
    decreases |a|
  {
    if a == [] {
      assert a + b == b;
    } else {
      assert (a + b)[1..] == a[1..] + b;
      VowelCountAppend(a[1..], b);
    }
  }

  /** The vowel rule counts the vowels among every third character. */
  lemma {:induction false} ThirdVowelCountIsEveryThird(s: string)
    ensures ThirdVowelCount(s) == VowelCount(EveryThird(s))
    decreases |s|
  {
    if s != [] {
      var init := s[..|s| - 1];
      ThirdVowelCountIsEveryThird(init);
      if |s| % 3 == 0 {
        assert EveryThird(s) == EveryThird(init) + [s[|s| - 1]];
        VowelCountAppend(EveryThird(init), [s[|s| - 1]]);
      } else {
        assert EveryThird(s) == EveryThird(init);
      }
    }
  }

  /** The position test repeats every three characters: after a prefix whose
      length is a multiple of 3, the rest of the text is counted as if it
      stood alone. */
  lemma {:induction false} ThirdVowelCountAppend(a: string, b: string)
    requires |a| % 3 == 0
    ensures ThirdVowelCount(a + b) == ThirdVowelCount(a) + ThirdVowelCount(b)
    decreases |b|
  {
    if b == [] {
      assert a + b == a;
    } else {
      var s := a + b;
      assert s[..|s| - 1] == a + b[..|b| - 1];
      assert s[|s| - 1] == b[|b| - 1];
      assert |s| % 3 == |b| % 3 by {
        assert |s| == |a| + |b|;
        var q := |a| / 3;
        assert |a| == 3 * q;
      }
      ThirdVowelCountAppend(a, b[..|b| - 1]);
    }
  }

  /** `5.0 if len(message) > 100 else 0.0` */
  function LengthPenalty(charCount: nat): (p: int)
    ensures p == LengthPenaltyCost <==> charCount > LengthLimit
    ensures p == 0 <==> charCount <= LengthLimit
  {
    if charCount > LengthLimit then LengthPenaltyCost else 0
  }

  /** `len(words) == len(set(words))` */
  predicate AllDistinct(words: seq<string>) {
    |words| == |set w | w in words|
  }

  /** No token occurs twice (case-sensitively). */
  predicate NoRepeats(words: seq<string>) {
    forall i, j :: 0 <= i < j < |words| ==> words[i] != words[j]
  }

  /** The size test on the set of tokens decides exactly whether some token
      repeats. */
  lemma {:induction false} AllDistinctIff(words: seq<string>)
    ensures |set w | w in words| <= |words|
    ensures AllDistinct(words) <==> NoRepeats(words)
    decreases |words|
  {
    if words != [] {
      var init := words[..|words| - 1];
      var x := words[|words| - 1];
      AllDistinctIff(init);
      assert words == init + [x];
      var prior := set w | w in init;
      assert (set w | w in words) == prior + {x};
      if x in init {
        assert prior + {x} == prior;
        var j :| 0 <= j < |init| && init[j] == x;
        assert words[j] == words[|words| - 1];
      } else {
        assert x !in prior;
        assert |prior + {x}| == |prior| + 1;
        assert forall i :: 0 <= i < |init| ==> words[i] == init[i];
      }
    }
  }

  /** `-2.0 if len(words) == len(set(words)) else 0.0` */
  function UniqueBonus(words: seq<string>): int {
    if AllDistinct(words) then UniqueWordBonus else 0
  }

  /** The bonus is granted exactly when no token repeats, and otherwise
      nothing is subtracted. */
  lemma UniqueBonusIff(words: seq<string>)
    ensures UniqueBonus(words) == UniqueWordBonus <==> NoRepeats(words)
    ensures UniqueBonus(words) == 0 <==> exists i, j :: 0 <= i < j < |words| && words[i] == words[j]
  {
    AllDistinctIff(words);
  }

  /** The six parts summed, before the floor. */
  function RawTotal(s: string): int {
    var words := Tokens(s);
    BaseCost + CharCost * |s| + WordCost(words) + ThirdVowelCost * ThirdVowelCount(s)
      + LengthPenalty(|s|) + UniqueBonus(words)
  }

  /** `max(total, 1)` */
  function Floored(s: string): (t: int)
    ensures t >= MinimumCost && t >= RawTotal(s)
    ensures t == RawTotal(s) || t == MinimumCost
  {
    if RawTotal(s) > MinimumCost then RawTotal(s) else MinimumCost
  }

  /** The cost of one message: the floored total, doubled when the cleaned
      text reads the same backwards. */
  function Score(s: string): (r: int)
    ensures r >= MinimumCost
    ensures IsPalindrome(Cleaned(s)) ==> r >= 2 * MinimumCost
  {
    if IsPalindrome(Cleaned(s)) then 2 * Floored(s) else Floored(s)
  }

  /** The cost is doubled exactly for messages whose cleaned text is a
      palindrome, and is otherwise the floored total. */
  lemma ScoreDoubling(s: string)
    ensures Score(s) == 2 * Floored(s) <==> IsPalindrome(Cleaned(s))
    ensures !IsPalindrome(Cleaned(s)) ==> Score(s) == Floored(s)
  {
  }

  /** The scores of a list of messages, position by position. */
  function ScoreAll(messages: seq<string>): (costs: seq<int>)
    ensures |costs| == |messages|
    ensures forall i :: 0 <= i < |costs| ==> costs[i] >= MinimumCost
  {
    seq(|messages|, i requires 0 <= i < |messages| => Score(messages[i]))
  }

  /** No cross-message state: scoring a concatenation scores each part. */
  lemma ScoreAllAppend(a: seq<string>, b: seq<string>)
    ensures ScoreAll(a + b) == ScoreAll(a) + ScoreAll(b)
  {
  }
}
