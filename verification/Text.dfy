// Decimal numerals, as `String(n)` prints them and `Number(text)` reads them, and substring search.
module Text {

  function Digit(d: nat): char
    requires d < 10
  {
    '0' + d as char
  }

  predicate IsDigit(c: char) {
    '0' <= c <= '9'
  }

  predicate AllDigits(s: string) {
    s != "" && forall i :: 0 <= i < |s| ==> IsDigit(s[i])
  }

  function Decimal(n: nat): string {
    if n < 10 then [Digit(n)] else Decimal(n / 10) + [Digit(n % 10)]
  }

  function Value(s: string): nat
    requires AllDigits(s)
  {
    var last := (s[|s| - 1] - '0') as nat;
    if |s| == 1 then last else 10 * Value(s[..|s| - 1]) + last
  }

  lemma {:induction false} ValueOfDecimal(n: nat)
    ensures AllDigits(Decimal(n)) && Value(Decimal(n)) == n
  {
    if n >= 10 {
      ValueOfDecimal(n / 10);
      var s := Decimal(n);
      assert s[..|s| - 1] == Decimal(n / 10);
      assert s[|s| - 1] == Digit(n % 10);
    }
  }

  predicate Contains(text: string, word: string)
    decreases |text|
  {
    word <= text || (text != "" && Contains(text[1..], word))
  }

  predicate StandsAt(word: string, text: string, i: nat) {
    i + |word| <= |text| && text[i..i + |word|] == word
  }

  /** `word` stands somewhere in `text`. */
  ghost predicate StandsIn(word: string, text: string) {
    exists i: nat :: StandsAt(word, text, i)
  }

  /** The search finds exactly the words that stand somewhere in the text. */
  lemma {:induction false} ContainsMeaning(text: string, word: string)
    ensures Contains(text, word) <==> StandsIn(word, text)
    decreases |text|
  {
    if word <= text {
      assert StandsAt(word, text, 0);
    } else if text != "" {
      ContainsMeaning(text[1..], word);
      if i: nat :| StandsAt(word, text[1..], i) {
        assert text[i + 1..i + 1 + |word|] == text[1..][i..i + |word|];
        assert StandsAt(word, text, i + 1);
      }
      assert !StandsAt(word, text, 0);
      if i: nat :| StandsAt(word, text, i) {
        assert text[1..][i - 1..i - 1 + |word|] == text[i..i + |word|];
        assert StandsAt(word, text[1..], i - 1);
      }
    }
  }

  /** Numerals are written with the most significant digit first, in the digits from 0 to 9. */
  lemma DecimalIsPositional(n: nat)
    ensures |Decimal(n)| == 1 <==> n < 10
    ensures n < 10 ==> Decimal(n) == [['0', '1', '2', '3', '4', '5', '6', '7', '8', '9'][n]]
    ensures n >= 10 ==> Decimal(n) == Decimal(n / 10) + Decimal(n % 10)
  {
  }
}
