/**
 * The script check of the bot: a message counts as written in English when
 * more than 80% of its characters are ASCII letters, and as Russian otherwise.
 */
module ScriptCheck {

  /** The two answers of the check, standing for the strings 'en' and 'rus'. */
  datatype Script = En | Rus

  /** A character matched by the pattern [a-zA-Z]. */
  predicate IsAsciiLetter(c: char) {
    ('a' <= c <= 'z') || ('A' <= c <= 'Z')
  }

  /** A character of the basic Cyrillic block (U+0400 to U+04FF). */
  predicate IsCyrillic(c: char) {
    'Ѐ' <= c <= 'ӿ'
  }

  /** The number of ASCII letters in `s`. */
  function LetterCount(s: seq<char>): (n: nat)
    ensures n <= |s|
    ensures n == 0 <==> forall i | 0 <= i < |s| :: !IsAsciiLetter(s[i])
    ensures n == |s| <==> forall i | 0 <= i < |s| :: IsAsciiLetter(s[i])
  {
    if s == [] then 0
    else LetterCount(s[..|s| - 1]) + (if IsAsciiLetter(s[|s| - 1]) then 1 else 0)
  }

  /** Counting is additive over concatenation: only the letters themselves count. */
  lemma {:induction false} LetterCountAppend(s: seq<char>, t: seq<char>)
    ensures LetterCount(s + t) == LetterCount(s) + LetterCount(t)
    decreases |t|
  {
    if t == [] {
      assert s + t == s;
    } else {
      var u := t[..|t| - 1];
      assert (s + t)[..|s + t| - 1] == s + u;
      assert (s + t)[|s + t| - 1] == t[|t| - 1];
      LetterCountAppend(s, u);
    }
  }

  /** The threshold test of the source, `count > 0.8 * len`, on exact reals. */
  predicate OverThreshold(count: nat, len: nat) {
    count as real > 0.8 * len as real
  }

  /** The real threshold agrees with the integer test 5 * count > 4 * len. */
  lemma OverThresholdExact(count: nat, len: nat)
    ensures OverThreshold(count, len) <==> 5 * count > 4 * len
  {
  }

  /** The answer of the script check on `text`, as a specification. */
  function Classify(text: seq<char>): (s: Script)
    ensures s == En <==> 5 * LetterCount(text) > 4 * |text|
    ensures |text| == 0 ==> s == Rus
    ensures (forall i | 0 <= i < |text| :: !IsAsciiLetter(text[i])) ==> s == Rus
    ensures (|text| > 0 && forall i | 0 <= i < |text| :: IsAsciiLetter(text[i])) ==> s == En
  {
    OverThresholdExact(LetterCount(text), |text|);
    if OverThreshold(LetterCount(text), |text|) then En else Rus
  }

  /** Text made only of Cyrillic characters is always taken for Russian. */
  lemma CyrillicIsRus(text: seq<char>)
    requires forall i | 0 <= i < |text| :: IsCyrillic(text[i])
    ensures Classify(text) == Rus
  {
  }

  /** Two texts that each pass (or each fail) the check still do so when joined. */
  lemma {:induction false} ClassifyConcat(s: seq<char>, t: seq<char>)
    requires Classify(s) == Classify(t)
    ensures Classify(s + t) == Classify(s)
  {
    LetterCountAppend(s, t);
  }

  /** "This is great" has 11 ASCII letters among 13 characters, so it is not Russian. */
  lemma {:induction false} ThisIsGreatIsEn()
    ensures LetterCount("This is great") == 11
    ensures Classify("This is great") == En
  {
    var words := ["This", " ", "is", " ", "great"];
    assert "This is great" == words[0] + words[1] + words[2] + words[3] + words[4];
    LetterCountAppend(words[0], words[1]);
    LetterCountAppend(words[0] + words[1], words[2]);
    LetterCountAppend(words[0] + words[1] + words[2], words[3]);
    LetterCountAppend(words[0] + words[1] + words[2] + words[3], words[4]);
    assert LetterCount(words[0]) == 4;
    assert LetterCount(words[1]) == 0;
    assert LetterCount(words[2]) == 2;
    assert LetterCount(words[3]) == 0;
    assert LetterCount(words[4]) == 5;
  }

  /** The counting loop of the source: tally the ASCII letters, then compare. */
  method CheckSymbol(text: seq<char>) returns (lang: Script)
    ensures lang == Classify(text)
    ensures lang == En <==> 5 * LetterCount(text) > 4 * |text|
  {
    var count: nat := 0;
    var i := 0;
    while i < |text|
      invariant 0 <= count <= i <= |text|
      invariant count == LetterCount(text[..i])
    {
      LetterCountAppend(text[..i], [text[i]]);
      assert text[..i + 1] == text[..i] + [text[i]];
      if IsAsciiLetter(text[i]) {
        count := count + 1;
      }
      i := i + 1;
    }
    assert text[..i] == text;
    if OverThreshold(count, |text|) {
      lang := En;
    } else {
      lang := Rus;
    }
  }
}
