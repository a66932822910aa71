/** The literal cases of the unit tests, as theorems about the reference
    score (in hundredths of a credit), and the batch case: both batch
    executors return the expected list for batch sizes 2 and 10. Each long message is taken
    apart into the facts the score depends on: its tokens, its every-third
    characters, its length and enough of its cleaned text. */
module Scenarios {
  import opened Text
  import opened Scoring
  import opened Batching
  import PytorchBackend
  import PandasBackend

  /** "-": 1 + 0.05 - 2 is floored to 1, and the empty cleaned text is a
      palindrome, so the cost doubles to 2. */
  lemma ScoreDash()
    ensures Score("-") == 200
  {
  }

  /** "a": floored to 1, doubled as a one-letter palindrome. */
  lemma ScoreA()
    ensures Score("a") == 200
  {
    TokensOfWord("a");
    assert (set w | w in ["a"]) == {"a"};
  }

  /** "az": floored to 1 and not doubled. */
  lemma ScoreAz()
    ensures Score("az") == 100
  {
    TokensOfWord("az");
    assert (set w | w in ["az"]) == {"az"};
    assert Reverse(Cleaned("az"))[0] == 'z';
  }

  // "What is the rent?"

  lemma TokensOfRent(s: string)
    requires s == "What is the rent?"
    ensures Tokens(s) == ["What", "is", "the", "rent"]
  {
    assert s == Join(["What", "is", "the", "rent"], [" ", " ", " ", "?"]);
    TokensOfJoin(["What", "is", "the", "rent"], [" ", " ", " ", "?"]);
  }

  lemma EveryThirdOfRent(s: string)
    requires s == "What is the rent?"
    ensures EveryThird(s) == "ait n"
  {
  }

  lemma VowelsOfRent(s: string)
    requires s == "What is the rent?"
    ensures ThirdVowelCount(s) == 2
  {
    ThirdVowelCountIsEveryThird(s);
    EveryThirdOfRent(s);
    assert VowelCount("ait n") == 2;
  }

  /** A message that starts with "W" and ends with "t?" cleans to a text
      that starts with 'w' and ends with 't', so it is never doubled. */
  lemma NotPalindromeWt(s: string)
    requires |s| >= 3 && s[0] == 'W' && s[|s| - 2] == 't' && s[|s| - 1] == '?'
    ensures !IsPalindrome(Cleaned(s))
  {
    var m := s[1..|s| - 2];
    assert s == "W" + m + "t?";
    assert Cleaned("W") == "w";
    assert Cleaned("t?") == "t";
    assert Reverse("t")[0] == 't';
    NotPalindromeByEnds("W", m, "t?");
  }

  lemma WordCostOfRent(ws: seq<string>)
    requires ws == ["What", "is", "the", "rent"]
    ensures WordCost(ws) == 60
  {
    assert WordCost(ws[..1]) == 20 by { assert ws[..1][..0] == []; }
    assert WordCost(ws[..2]) == 30 by { assert ws[..2][..1] == ws[..1]; }
    assert WordCost(ws[..3]) == 40 by { assert ws[..3][..2] == ws[..2]; }
    assert ws[..4] == ws;
  }

  lemma DistinctRent(ws: seq<string>)
    requires ws == ["What", "is", "the", "rent"]
    ensures AllDistinct(ws)
  {
    AllDistinctIff(ws);
  }

  /** "What is the rent?": 1 + 0.85 + 0.6 (words) + 0.6 (vowels) - 2. */
  lemma ScoreRent()
    ensures Score("What is the rent?") == 105
  {
    var s := "What is the rent?";
    TokensOfRent(s);
    VowelsOfRent(s);
    NotPalindromeWt(s);
    WordCostOfRent(Tokens(s));
    DistinctRent(Tokens(s));
  }

  // "What is is the rent?"

  lemma TokensOfRepeat(s: string)
    requires s == "What is is the rent?"
    ensures Tokens(s) == ["What", "is", "is", "the", "rent"]
  {
    assert s == Join(["What", "is", "is", "the", "rent"], [" ", " ", " ", " ", "?"]);
    TokensOfJoin(["What", "is", "is", "the", "rent"], [" ", " ", " ", " ", "?"]);
  }

  lemma EveryThirdOfRepeat(s: string)
    requires s == "What is is the rent?"
    ensures EveryThird(s) == "aiit n"
  {
  }

  lemma VowelsOfRepeat(s: string)
    requires s == "What is is the rent?"
    ensures ThirdVowelCount(s) == 3
  {
    ThirdVowelCountIsEveryThird(s);
    EveryThirdOfRepeat(s);
    assert VowelCount("aiit n") == 3;
  }

  lemma WordCostOfRepeat(ws: seq<string>)
    requires ws == ["What", "is", "is", "the", "rent"]
    ensures WordCost(ws) == 70
  {
    assert WordCost(ws[..1]) == 20 by { assert ws[..1][..0] == []; }
    assert WordCost(ws[..2]) == 30 by { assert ws[..2][..1] == ws[..1]; }
    assert WordCost(ws[..3]) == 40 by { assert ws[..3][..2] == ws[..2]; }
    assert WordCost(ws[..4]) == 50 by { assert ws[..4][..3] == ws[..3]; }
    assert ws[..5] == ws;
  }

  lemma RepeatsRepeat(ws: seq<string>)
    requires ws == ["What", "is", "is", "the", "rent"]
    ensures !AllDistinct(ws)
  {
    AllDistinctIff(ws);
    assert ws[1] == ws[2];
  }

  /** "What is is the rent?": 1 + 1 + 0.7 (words) + 0.9 (vowels) and no
      bonus, since "is" repeats. */
  lemma ScoreRepeat()
    ensures Score("What is is the rent?") == 360
  {
    var s := "What is is the rent?";
    TokensOfRepeat(s);
    VowelsOfRepeat(s);
    NotPalindromeWt(s);
    WordCostOfRepeat(Tokens(s));
    RepeatsRepeat(Tokens(s));
  }

  // "--a -i -a -a -a" and "-a- i- a- a- a-": the same tokens; the first has
  // a vowel at every third position, the second none.

  lemma WordCostOfVowels(ws: seq<string>)
    requires ws == ["a", "i", "a", "a", "a"]
    ensures WordCost(ws) == 50
  {
    WordCostShort(ws);
  }

  lemma RepeatsVowels(ws: seq<string>)
    requires ws == ["a", "i", "a", "a", "a"]
    ensures !AllDistinct(ws)
  {
    AllDistinctIff(ws);
    assert ws[0] == ws[2];
  }

  /** A lead of non-word characters followed by the five one-letter words
      a, i, a, a, a, joined by separator runs. */
  lemma TokensOfVowelWords(s: string, lead: string, seps: seq<string>)
    requires |seps| == 5 && s == lead + Join(["a", "i", "a", "a", "a"], seps)
    requires forall i :: 0 <= i < |lead| ==> !IsWordChar(lead[i])
    requires forall k :: 0 <= k < 4 ==> seps[k] != []
    requires forall k, i :: 0 <= k < 5 && 0 <= i < |seps[k]| ==> !IsWordChar(seps[k][i])
    ensures Tokens(s) == ["a", "i", "a", "a", "a"]
  {
    TokensSkipAll(lead, Join(["a", "i", "a", "a", "a"], seps));
    TokensOfJoin(["a", "i", "a", "a", "a"], seps);
  }

  /** Both messages clean to a text that starts with "ai" and ends with
      "aa", so neither is doubled. */
  lemma NotPalindromeVowels(s: string)
    requires s == "--a -i -a -a -a" || s == "-a- i- a- a- a-"
    ensures !IsPalindrome(Cleaned(s))
  {
    assert Reverse("aa")[1] == 'a';
    if s == "--a -i -a -a -a" {
      assert s == "--a -i" + " -a " + "-a -a";
      assert Cleaned("--a -i") == "ai";
      assert Cleaned("-a -a") == "aa";
      NotPalindromeByEnds("--a -i", " -a ", "-a -a");
    } else {
      assert s == "-a- i-" + " a- " + "a- a-";
      assert Cleaned("-a- i-") == "ai";
      assert Cleaned("a- a-") == "aa";
      NotPalindromeByEnds("-a- i-", " a- ", "a- a-");
    }
  }

  /** A fifteen-character message that is not doubled and has the tokens
      a, i, a, a, a: 1 + 0.75 + 0.5 (words) and 0.3 per vowel at a third
      position. */
  lemma ScoreOfVowelWords(s: string)
    requires |s| == 15 && Tokens(s) == ["a", "i", "a", "a", "a"] && !IsPalindrome(Cleaned(s))
    ensures Score(s) == 225 + ThirdVowelCost * ThirdVowelCount(s)
  {
    WordCostOfVowels(Tokens(s));
    RepeatsVowels(Tokens(s));
  }

  lemma EveryThirdOfThirdVowels(s: string)
    requires s == "--a -i -a -a -a"
    ensures EveryThird(s) == "aiaaa"
  {
  }

  lemma VowelsOfThirdVowels(s: string)
    requires s == "--a -i -a -a -a"
    ensures ThirdVowelCount(s) == 5
  {
    ThirdVowelCountIsEveryThird(s);
    EveryThirdOfThirdVowels(s);
    assert VowelCount("aiaaa") == 5;
  }

  /** "--a -i -a -a -a": 1 + 0.75 + 0.5 (words) + 1.5 (five third vowels). */
  lemma ScoreThirdVowels()
    ensures Score("--a -i -a -a -a") == 375
  {
    var s := "--a -i -a -a -a";
    var ws, seps := ["a", "i", "a", "a", "a"], [" -", " -", " -", " -", ""];
    assert Join(ws[4..], seps[4..]) == "a";
    assert Join(ws[3..], seps[3..]) == "a -a";
    assert Join(ws[2..], seps[2..]) == "a -a -a";
    assert Join(ws[1..], seps[1..]) == "i -a -a -a";
    TokensOfVowelWords(s, "--", seps);
    VowelsOfThirdVowels(s);
    NotPalindromeVowels(s);
    ScoreOfVowelWords(s);
  }

  lemma EveryThirdOfShiftedVowels(s: string)
    requires s == "-a- i- a- a- a-"
    ensures EveryThird(s) == "-----"
  {
  }

  lemma VowelsOfShiftedVowels(s: string)
    requires s == "-a- i- a- a- a-"
    ensures ThirdVowelCount(s) == 0
  {
    ThirdVowelCountIsEveryThird(s);
    EveryThirdOfShiftedVowels(s);
    assert VowelCount("-----") == 0;
  }

  /** "-a- i- a- a- a-": 1 + 0.75 + 0.5 (words), no vowel at a third
      position. */
  lemma ScoreShiftedVowels()
    ensures Score("-a- i- a- a- a-") == 225
  {
    var s := "-a- i- a- a- a-";
    var ws, seps := ["a", "i", "a", "a", "a"], ["- ", "- ", "- ", "- ", "-"];
    assert Join(ws[4..], seps[4..]) == "a-";
    assert Join(ws[3..], seps[3..]) == "a- a-";
    assert Join(ws[2..], seps[2..]) == "a- a- a-";
    assert Join(ws[1..], seps[1..]) == "i- a- a- a-";
    TokensOfVowelWords(s, "-", seps);
    VowelsOfShiftedVowels(s);
    NotPalindromeVowels(s);
    ScoreOfVowelWords(s);
  }

  // A run of n letters 'z' followed by "-": the length-penalty boundary.

  /** The message `"z" * n + "-"`, of length n + 1, is one long word, has no
      vowel, and cleans to a palindrome. Its cost is the doubled
      1 + 0.05 (n + 1) + 0.3 - 2, plus the doubled penalty exactly when
      the message is longer than 100 characters. */
  lemma ScoreZRun(n: nat)
    requires n >= 33
    ensures Score(Repeat('z', n) + "-") == 2 * (5 * n - 65 + (if n >= LengthLimit then LengthPenaltyCost else 0))
  {
    var r := Repeat('z', n);
    var s := r + "-";
    assert Join([r], ["-"]) == s;
    TokensOfJoin([r], ["-"]);
    ThirdVowelCountNoVowels(s);
    WordCostCons(r, []);
    assert (set w | w in [r]) == {r};
    CleanedAppend(r, "-");
    CleanedFixes(r);
    assert Cleaned(s) == r;
    RepeatIsPalindrome('z', n);
  }

  /** The penalty starts at the 101st character: the 100-character message
      costs 8.6, the 101-character one of the tests 18.7. */
  lemma LengthPenaltyBoundary()
    ensures Score(Repeat('z', 99) + "-") == 860
    ensures Score(Repeat('z', 100) + "-") == 1870
  {
    ScoreZRun(99);
    ScoreZRun(100);
  }

  /** The messages of the batch test. */
  function BatchMessages(): (ms: seq<string>)
    ensures |ms| == 5
  {
    ["-", "What is the rent?", "--a -i -a -a -a", Repeat('z', 100) + "-", "az"]
  }

  lemma ScoreAllBatch()
    ensures ScoreAll(BatchMessages()) == [200, 105, 375, 1870, 100]
  {
    var ms, expected := BatchMessages(), [200, 105, 375, 1870, 100];
    forall i | 0 <= i < 5
      ensures ScoreAll(ms)[i] == expected[i]
    {
      var m := ms[i];
      if i == 0 {
        assert m == "-";
        ScoreDash();
      } else if i == 1 {
        assert m == "What is the rent?";
        ScoreRent();
      } else if i == 2 {
        assert m == "--a -i -a -a -a";
        ScoreThirdVowels();
      } else if i == 3 {
        assert m == Repeat('z', 100) + "-";
        LengthPenaltyBoundary();
      } else {
        assert m == "az";
        ScoreAz();
      }
    }
  }

  /** The batch test: both executors, with batch sizes 2 and 10, return
      [2, 1.05, 3.75, 18.7, 1]. */
  method BatchScenario() returns (torch2: seq<int>, torch10: seq<int>, pandas2: seq<int>, pandas10: seq<int>)
    ensures torch2 == torch10 == pandas2 == pandas10 == [200, 105, 375, 1870, 100]
  {
    ScoreAllBatch();
    torch2 := PytorchBackend.CalculateCreditsBatch(BatchMessages(), 2);
    torch10 := PytorchBackend.CalculateCreditsBatch(BatchMessages(), 10);
    pandas2 := PandasBackend.CalculateCreditsBatch(BatchMessages(), 2);
    pandas10 := PandasBackend.CalculateCreditsBatch(BatchMessages(), 10);
  }
}
