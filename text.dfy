/** The pieces of Python's `re` module and `str` methods that the scorer uses,
    on ASCII text: the `\b\w+\b` tokenizer, the `[^a-zA-Z0-9]` filter,
    `.lower()` and the `[::-1]` reversal. */
module Text {

  /** `[a-zA-Z0-9]` */
  predicate IsAlnum(c: char) {
    ('a' <= c <= 'z') || ('A' <= c <= 'Z') || ('0' <= c <= '9')
  }

  predicate IsUpper(c: char) {
    'A' <= c <= 'Z'
  }

  /** `\w` on ASCII text: letters, digits and the underscore. */
  predicate IsWordChar(c: char) {
    IsAlnum(c) || c == '_'
  }

  /** Membership in the string "aeiouAEIOU". */
  predicate IsVowel(c: char) {
    c in "aeiouAEIOU"
  }

  /** A non-empty run of word characters: what one match of `\w+` is. */
  predicate IsWord(w: string) {
    |w| >= 1 && forall i :: 0 <= i < |w| ==> IsWordChar(w[i])
  }

  /** The length of the longest prefix of `s` made of word characters. */
  function WordRun(s: string): (n: nat)
    ensures n <= |s|
    ensures forall i :: 0 <= i < n ==> IsWordChar(s[i])
    ensures n < |s| ==> !IsWordChar(s[n])
  {
    if s == [] || !IsWordChar(s[0]) then 0 else 1 + WordRun(s[1..])
  }

  /** `re.findall(r"\b\w+\b", s)`: the maximal runs of word characters,
      left to right. A run starts after a non-word character (or at the
      start), and greedy `\w+` consumes it to its end, where the second `\b`
      holds. */
  function Tokens(s: string): (ts: seq<string>)
    ensures forall k :: 0 <= k < |ts| ==> IsWord(ts[k])
    decreases |s|
  {
    if s == [] then []
    else if !IsWordChar(s[0]) then Tokens(s[1..])
    else
      var n := WordRun(s);
      [s[..n]] + Tokens(s[n..])
  }

  /** A word run ends where the text it is in stops being made of word
      characters, whatever follows that point. */
  lemma {:induction false} WordRunStops(a: string, t: string)
    requires WordRun(a) < |a| || (t != [] && !IsWordChar(t[0]))
    ensures WordRun(a + t) == WordRun(a)
    decreases |a|
  {
    if a != [] && IsWordChar(a[0]) {
      assert (a + t)[1..] == a[1..] + t;
      WordRunStops(a[1..], t);
    } else if a == [] {
      assert a + t == t;
    }
  }

  /** A non-word character separates tokens: the tokens of `a + [c] + b`
      are those of `a` followed by those of `b`. */
  lemma {:induction false} TokensSplit(a: string, c: char, b: string)
    requires !IsWordChar(c)
    ensures Tokens(a + [c] + b) == Tokens(a) + Tokens(b)
    decreases |a|
  {
    var s := a + [c] + b;
    if a == [] {
      assert s == [c] + b;
      assert s[1..] == b;
    } else if !IsWordChar(a[0]) {
      assert s[0] == a[0];
      assert s[1..] == a[1..] + [c] + b;
      TokensSplit(a[1..], c, b);
    } else {
      var n := WordRun(a);
      assert s == a + ([c] + b);
      WordRunStops(a, [c] + b);
      assert s[..n] == a[..n];
      assert s[n..] == a[n..] + [c] + b;
      TokensSplit(a[n..], c, b);
    }
  }

  /** A text that is one run of word characters is its own single token. */
  lemma TokensOfWord(w: string)
    requires IsWord(w)
    ensures Tokens(w) == [w]
  {
    assert WordRun(w) == |w|;
    assert w[..|w|] == w;
    assert w[|w|..] == [];
  }

  /** A leading non-word character contributes no token. */
  lemma TokensSkip(c: char, rest: string)
    requires !IsWordChar(c)
    ensures Tokens([c] + rest) == Tokens(rest)
  {
    TokensSplit([], c, rest);
    assert [] + [c] + rest == [c] + rest;
  }

  /** A leading run of non-word characters contributes no token. */
  lemma {:induction false} TokensSkipAll(lead: string, rest: string)
    requires forall i :: 0 <= i < |lead| ==> !IsWordChar(lead[i])
    ensures Tokens(lead + rest) == Tokens(rest)
    decreases |lead|
  {
    if lead == [] {
      assert lead + rest == rest;
    } else {
      TokensSkipAll(lead[1..], rest);
      assert lead + rest == [lead[0]] + (lead[1..] + rest);
      TokensSkip(lead[0], lead[1..] + rest);
    }
  }

  /** Words followed each by a run of separators. */
  function Join(words: seq<string>, seps: seq<string>): string
    requires |words| == |seps|
  {
    if words == [] then [] else words[0] + seps[0] + Join(words[1..], seps[1..])
  }

  /** A word followed by a non-empty run of non-word characters is one token,
      whatever comes after. */
  lemma TokensOfWordThen(w: string, sep: string, rest: string)
    requires IsWord(w) && sep != []
    requires forall i :: 0 <= i < |sep| ==> !IsWordChar(sep[i])
    ensures Tokens(w + sep + rest) == [w] + Tokens(rest)
  {
    assert w + sep + rest == w + [sep[0]] + (sep[1..] + rest);
    TokensSplit(w, sep[0], sep[1..] + rest);
    TokensOfWord(w);
    TokensSkipAll(sep[1..], rest);
  }

  /** The tokenizer recovers the words of a text built from words and
      separator runs: every separator run but the last must be non-empty,
      and no separator run holds a word character. This is the sense in
      which the tokens are the maximal word runs. */
  lemma {:induction false} TokensOfJoin(words: seq<string>, seps: seq<string>)
    requires |words| == |seps|
    requires forall k :: 0 <= k < |words| ==> IsWord(words[k])
    requires forall k :: 0 <= k < |seps| - 1 ==> seps[k] != []
    requires forall k, i :: 0 <= k < |seps| && 0 <= i < |seps[k]| ==> !IsWordChar(seps[k][i])
    ensures Tokens(Join(words, seps)) == words
    decreases |words|
  {
    if words != [] {
      var w, sep := words[0], seps[0];
      var rest := Join(words[1..], seps[1..]);
      TokensOfJoin(words[1..], seps[1..]);
      assert forall i :: 0 <= i < |sep| ==> !IsWordChar(sep[i]);
      if sep == [] {
        assert rest == [];
        assert w + sep + rest == w;
        TokensOfWord(w);
      } else {
        TokensOfWordThen(w, sep, rest);
      }
    }
  }

  /** A text has no tokens exactly when it has no word character. */
  lemma {:induction false} TokensEmptyIff(s: string)
    ensures Tokens(s) == [] <==> forall i :: 0 <= i < |s| ==> !IsWordChar(s[i])
    decreases |s|
  {
    if s != [] {
      if !IsWordChar(s[0]) {
        TokensEmptyIff(s[1..]);
        assert forall i :: 1 <= i < |s| ==> s[i] == s[1..][i - 1];
      }
    }
  }

  /** `re.sub(r"[^a-zA-Z0-9]", "", s)`: drops every character that is not an
      ASCII letter or digit (the underscore included). */
  function KeepAlnum(s: string): (r: string)
    ensures |r| <= |s|
    ensures forall i :: 0 <= i < |r| ==> IsAlnum(r[i])
  {
    if s == [] then []
    else if IsAlnum(s[0]) then [s[0]] + KeepAlnum(s[1..])
    else KeepAlnum(s[1..])
  }

  /** An upper-case ASCII letter becomes its lower-case letter; every other
      character is left as it is. */
  function LowerChar(c: char): (r: char)
    ensures IsUpper(c) ==> 'a' <= r <= 'z' && r as int == c as int + 32
    ensures !IsUpper(c) ==> r == c
  {
    if IsUpper(c) then (c as int + 32) as char else c
  }

  /** `.lower()` on ASCII text. */
  function Lower(s: string): (r: string)
    ensures |r| == |s|
  {
    seq(|s|, i requires 0 <= i < |s| => LowerChar(s[i]))
  }

  /** The cleaned text of the palindrome rule: alphanumerics only, then
      lower-cased. */
  function Cleaned(s: string): (r: string)
    ensures |r| <= |s|
    ensures forall i :: 0 <= i < |r| ==> IsAlnum(r[i]) && !IsUpper(r[i])
  {
    Lower(KeepAlnum(s))
  }

  /** The positions of `s` that hold an ASCII letter or digit. */
  ghost function AlnumPositions(s: string): set<int> {
    set i | 0 <= i < |s| && IsAlnum(s[i])
  }

  /** Extending a text by one character adds its position to the
      alphanumeric ones exactly when it is alphanumeric. */
  lemma AlnumPositionsSnoc(s: string)
    requires s != []
    ensures AlnumPositions(s) == AlnumPositions(s[..|s| - 1])
      + (if IsAlnum(s[|s| - 1]) then {|s| - 1} else {})
    ensures |s| - 1 !in AlnumPositions(s[..|s| - 1])
  {
    var init := s[..|s| - 1];
    forall i | i in AlnumPositions(init)
      ensures i in AlnumPositions(s)
    {
      assert init[i] == s[i];
    }
    forall i | i in AlnumPositions(s) && i < |s| - 1
      ensures i in AlnumPositions(init)
    {
      assert init[i] == s[i];
    }
  }

  /** The filter drops a character that is not an ASCII letter or digit,
      wherever it stands. */
  lemma KeepAlnumDrops(a: string, c: char, b: string)
    requires !IsAlnum(c)
    ensures KeepAlnum(a + [c] + b) == KeepAlnum(a) + KeepAlnum(b)
  {
    KeepAlnumAppend(a + [c], b);
    KeepAlnumAppend(a, [c]);
  }

  /** The filter keeps an ASCII letter or digit, in its place. */
  lemma KeepAlnumKeeps(a: string, c: char, b: string)
    requires IsAlnum(c)
    ensures KeepAlnum(a + [c] + b) == KeepAlnum(a) + [c] + KeepAlnum(b)
  {
    KeepAlnumAppend(a + [c], b);
    KeepAlnumAppend(a, [c]);
  }

  /** Nothing alphanumeric is lost: the filtered text has one character for
      each alphanumeric position of the message. */
  lemma {:induction false} KeepAlnumLength(s: string)
    ensures |KeepAlnum(s)| == |AlnumPositions(s)|
    decreases |s|
  {
    if s != [] {
      var init := s[..|s| - 1];
      KeepAlnumLength(init);
      assert s == init + [s[|s| - 1]];
      KeepAlnumAppend(init, [s[|s| - 1]]);
      AlnumPositionsSnoc(s);
    }
  }

  lemma {:induction false} KeepAlnumAppend(s: string, t: string)
    ensures KeepAlnum(s + t) == KeepAlnum(s) + KeepAlnum(t)
    decreases |s|
  {
    if s == [] {
      assert s + t == t;
    } else {
      assert (s + t)[0] == s[0];
      assert (s + t)[1..] == s[1..] + t;
      KeepAlnumAppend(s[1..], t);
    }
  }

  /** Cleaning works character by character, so it distributes over
      concatenation. */
  lemma CleanedAppend(s: string, t: string)
    ensures Cleaned(s + t) == Cleaned(s) + Cleaned(t)
  {
    KeepAlnumAppend(s, t);
  }

  /** Cleaning removes a character that is not an ASCII letter or digit. */
  lemma CleanedDrops(a: string, c: char, b: string)
    requires !IsAlnum(c)
    ensures Cleaned(a + [c] + b) == Cleaned(a) + Cleaned(b)
  {
    KeepAlnumDrops(a, c, b);
  }

  /** Cleaning keeps an ASCII letter or digit in its place, lower-cased. */
  lemma CleanedLowers(a: string, c: char, b: string)
    requires IsAlnum(c)
    ensures Cleaned(a + [c] + b) == Cleaned(a) + [LowerChar(c)] + Cleaned(b)
  {
    KeepAlnumKeeps(a, c, b);
    var k := KeepAlnum(a);
    assert Lower(k + [c] + KeepAlnum(b)) == Lower(k) + [LowerChar(c)] + Lower(KeepAlnum(b));
  }

  /** A text that is already lower-case alphanumeric is left unchanged;
      in particular cleaning is idempotent. */
  lemma {:induction false} CleanedFixes(s: string)
    requires forall i :: 0 <= i < |s| ==> IsAlnum(s[i]) && !IsUpper(s[i])
    ensures Cleaned(s) == s
    decreases |s|
  {
    if s != [] {
      CleanedFixes(s[1..]);
      assert KeepAlnum(s) == [s[0]] + KeepAlnum(s[1..]);
    }
  }

  lemma CleanedIdempotent(s: string)
    ensures Cleaned(Cleaned(s)) == Cleaned(s)
  {
    CleanedFixes(Cleaned(s));
  }

  /** `t[::-1]` */
  function Reverse(t: string): (r: string) {
    seq(|t|, i requires 0 <= i < |t| => t[|t| - 1 - i])
  }

  /** `t == t[::-1]` */
  predicate IsPalindrome(t: string) {
    t == Reverse(t)
  }

  /** The palindrome test compares each character with its mirror image. */
  lemma PalindromeIff(t: string)
    ensures IsPalindrome(t) <==> forall i :: 0 <= i < |t| ==> t[i] == t[|t| - 1 - i]
  {
    if forall i :: 0 <= i < |t| ==> t[i] == t[|t| - 1 - i] {
      assert forall i :: 0 <= i < |t| ==> Reverse(t)[i] == t[i];
    }
  }

  /** A cleaned text whose first characters are not its last ones read
      backwards is no palindrome: it suffices to clean a head `p` and a tail
      `q` of the message. */
  lemma NotPalindromeByEnds(p: string, m: string, q: string)
    requires |Cleaned(p)| == |Cleaned(q)|
    requires Cleaned(p) != Reverse(Cleaned(q))
    ensures !IsPalindrome(Cleaned(p + m + q))
  {
    CleanedAppend(p + m, q);
    CleanedAppend(p, m);
    var c, P, Q := Cleaned(p + m + q), Cleaned(p), Cleaned(q);
    assert c == P + Cleaned(m) + Q;
    var k :| 0 <= k < |P| && P[k] != Reverse(Q)[k];
    assert c[k] == P[k];
    assert Reverse(c)[k] == Q[|Q| - 1 - k];
  }

  /** `c * n` */
  function Repeat(c: char, n: nat): (r: string) {
    seq(n, _ => c)
  }

  /** A run of one character reads the same backwards. */
  lemma RepeatIsPalindrome(c: char, n: nat)
    ensures IsPalindrome(Repeat(c, n))
  {
    assert Reverse(Repeat(c, n)) == Repeat(c, n);
  }
}
