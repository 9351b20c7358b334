/**
 * The fixed ASCII character classes that the password generator draws from
 * and that the strength assessor tests for: Python's `string.ascii_letters`,
 * `string.digits` and `string.punctuation`, and the ASCII cases of
 * `str.islower`, `str.isupper` and `str.isdigit` on one character.
 */
module CharClasses {

  /** `string.ascii_lowercase` */
  const AsciiLowercase: string := "abcdefghijklmnopqrstuvwxyz"
  /** `string.ascii_uppercase` */
  const AsciiUppercase: string := "ABCDEFGHIJKLMNOPQRSTUVWXYZ"
  /** `string.ascii_letters`: the lowercase letters, then the uppercase ones */
  const AsciiLetters: string := AsciiLowercase + AsciiUppercase
  /** `string.digits` */
  const Digits: string := "0123456789"
  /** `string.punctuation`: the 32 ASCII punctuation characters, in code order */
  const Punctuation: string := "!\"#$%&'()*+,-./:;<=>?@[\\]^_`{|}~"

  /** `c.islower()` on an ASCII character */
  predicate IsLower(c: char) { 'a' <= c <= 'z' }
  /** `c.isupper()` on an ASCII character */
  predicate IsUpper(c: char) { 'A' <= c <= 'Z' }
  /** `c.isdigit()` on an ASCII character */
  predicate IsDigit(c: char) { '0' <= c <= '9' }
  /** `c in string.punctuation` */
  predicate IsPunctuation(c: char) { c in Punctuation }

  lemma LowercaseExactly(c: char)
    ensures c in AsciiLowercase <==> IsLower(c)
  {
  }

  lemma UppercaseExactly(c: char)
    ensures c in AsciiUppercase <==> IsUpper(c)
  {
  }

  lemma DigitsExactly(c: char)
    ensures c in Digits <==> IsDigit(c)
  {
  }

  lemma PunctuationExactly(c: char)
    ensures IsPunctuation(c) <==>
      ('!' <= c <= '/') || (':' <= c <= '@') || ('[' <= c <= '`') || ('{' <= c <= '~')
  {
  }

  /** Consecutive characters of `s` rise strictly in code order. */
  predicate Ascending(s: string) {
    forall i :: 0 < i < |s| ==> s[i - 1] < s[i]
  }

  /** No character occurs twice in `s`. */
  predicate Distinct(s: string) {
    forall i, j :: 0 <= i < j < |s| ==> s[i] != s[j]
  }

  lemma {:induction false} AscendingDistinct(s: string)
    requires Ascending(s)
    ensures forall i, j :: 0 <= i < j < |s| ==> s[i] < s[j]
    ensures Distinct(s)
  {
    if |s| > 1 {
      var init := s[..|s| - 1];
      assert Ascending(init) by {
        forall i | 0 < i < |init| ensures init[i - 1] < init[i] {
          assert init[i - 1] == s[i - 1] && init[i] == s[i];
        }
      }
      AscendingDistinct(init);
      forall i | 0 <= i < |s| - 1 ensures s[i] < s[|s| - 1] {
        if i < |s| - 2 {
          assert init[i] < init[|s| - 2];
        }
      }
    }
  }

  lemma ClassesAscending()
    ensures Ascending(AsciiLowercase) && Ascending(AsciiUppercase)
    ensures Ascending(Digits) && Ascending(Punctuation)
  {
  }

  lemma {:induction false} ConcatDistinct(a: string, b: string)
    requires Distinct(a) && Distinct(b)
    requires forall c :: c in a ==> c !in b
    ensures Distinct(a + b)
  {
    var ab := a + b;
    forall i, j | 0 <= i < j < |ab| ensures ab[i] != ab[j] {
      if j < |a| {
        assert ab[i] == a[i] && ab[j] == a[j];
      } else if i >= |a| {
        assert ab[i] == b[i - |a|] && ab[j] == b[j - |a|];
      } else {
        assert ab[i] == a[i] && ab[j] == b[j - |a|];
        assert a[i] in a;
      }
    }
  }

  /** Every class string is free of repeats, and so is `string.ascii_letters`. */
  lemma {:induction false} ClassesDistinct()
    ensures Distinct(AsciiLowercase) && Distinct(AsciiUppercase) && Distinct(AsciiLetters)
    ensures Distinct(Digits) && Distinct(Punctuation)
  {
    ClassesAscending();
    AscendingDistinct(AsciiLowercase);
    AscendingDistinct(AsciiUppercase);
    AscendingDistinct(Digits);
    AscendingDistinct(Punctuation);
    forall c | c in AsciiLowercase ensures c !in AsciiUppercase {
      LowercaseExactly(c);
      UppercaseExactly(c);
    }
    ConcatDistinct(AsciiLowercase, AsciiUppercase);
  }
}
