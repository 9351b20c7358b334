/**
 * `assess_password_strength`: a score from 0 to 4 made of a length term,
 * capped at 1, plus one point per character class the password uses, with
 * the sum capped at 4.
 */
module Strength {
  import opened CharClasses

  function Min(a: int, b: int): int { if a <= b then a else b }

  /** `any(pred(c) for c in password)` */
  predicate HasLower(password: string) { exists i :: 0 <= i < |password| && IsLower(password[i]) }
  predicate HasUpper(password: string) { exists i :: 0 <= i < |password| && IsUpper(password[i]) }
  predicate HasDigit(password: string) { exists i :: 0 <= i < |password| && IsDigit(password[i]) }
  predicate HasPunctuation(password: string) { exists i :: 0 <= i < |password| && IsPunctuation(password[i]) }

  function Count(b: bool): nat { if b then 1 else 0 }

  /** `min(1, len(password) // 4)`: one point once the password has four characters. */
  function LengthScore(password: string): (r: nat)
    ensures r == 1 <==> |password| >= 4
    ensures r == 0 <==> |password| < 4
  {
    Min(1, |password| / 4)
  }

  /** The number of the four character classes that occur in the password. */
  function VarietyScore(password: string): (r: nat)
    ensures r <= 4
    ensures r == 0 <==> !HasLower(password) && !HasUpper(password)
                        && !HasDigit(password) && !HasPunctuation(password)
    ensures r == 4 <==> HasLower(password) && HasUpper(password)
                        && HasDigit(password) && HasPunctuation(password)
  {
    Count(HasLower(password)) + Count(HasUpper(password))
    + Count(HasDigit(password)) + Count(HasPunctuation(password))
  }

  /** `assess_password_strength(password)` */
  function Score(password: string): (r: nat)
    ensures r <= 4
    ensures password == [] ==> r == 0
    ensures r >= VarietyScore(password)
    ensures |password| < 4 ==> r == VarietyScore(password)
  {
    Min(4, LengthScore(password) + VarietyScore(password))
  }

  /** The length term saturates: past four characters, length alone adds nothing. */
  lemma {:induction false} LongPasswordsScoreVariety(password: string)
    requires |password| >= 4
    ensures Score(password) == Min(4, 1 + VarietyScore(password))
  {
  }

  /** Two passwords over the same characters, on the same side of the length threshold, score alike. */
  lemma {:induction false} ScoreDependsOnCharactersAndThreshold(p: string, q: string)
    requires forall c :: c in p <==> c in q
    requires |p| >= 4 <==> |q| >= 4
    ensures Score(p) == Score(q)
  {
    SameCharactersSameClasses(p, q);
    SameCharactersSameClasses(q, p);
  }

  /** Every class that occurs in `p` occurs in `q` when `q` holds every character of `p`. */
  lemma {:induction false} SameCharactersSameClasses(p: string, q: string)
    requires forall c :: c in p ==> c in q
    ensures HasLower(p) ==> HasLower(q)
    ensures HasUpper(p) ==> HasUpper(q)
    ensures HasDigit(p) ==> HasDigit(q)
    ensures HasPunctuation(p) ==> HasPunctuation(q)
  {
    if HasLower(p) {
      var i :| 0 <= i < |p| && IsLower(p[i]);
      assert p[i] in q;
    }
    if HasUpper(p) {
      var i :| 0 <= i < |p| && IsUpper(p[i]);
      assert p[i] in q;
    }
    if HasDigit(p) {
      var i :| 0 <= i < |p| && IsDigit(p[i]);
      assert p[i] in q;
    }
    if HasPunctuation(p) {
      var i :| 0 <= i < |p| && IsPunctuation(p[i]);
      assert p[i] in q;
    }
  }

  /** Appending characters never lowers the score. */
  lemma {:induction false} ScoreMonotone(p: string, q: string)
    ensures Score(p) <= Score(p + q)
  {
    forall c | c in p ensures c in p + q {
      var i :| 0 <= i < |p| && p[i] == c;
      assert (p + q)[i] == c;
    }
    SameCharactersSameClasses(p, p + q);
  }

  /** The top score is reached exactly by all four classes, or by three classes and four characters. */
  lemma {:induction false} TopScore(password: string)
    ensures Score(password) == 4 <==>
      VarietyScore(password) == 4 || (VarietyScore(password) == 3 && |password| >= 4)
  {
  }

  /** Letters and digits are never punctuation, and lowercase letters and digits are never uppercase. */
  lemma {:induction false} LowerAndDigitsOnly(password: string)
    requires forall i :: 0 <= i < |password| ==> IsLower(password[i]) || IsDigit(password[i])
    ensures !HasUpper(password) && !HasPunctuation(password)
  {
    forall i | 0 <= i < |password| ensures !IsPunctuation(password[i]) {
      PunctuationExactly(password[i]);
    }
  }

  /** The expected scores of the repository's unit tests. */
  lemma {:induction false} ScoreAllClasses()
    ensures Score("zsdf123A@!pokj") == 4
  {
    var p := "zsdf123A@!pokj";
    assert IsLower(p[0]) && IsDigit(p[4]) && IsUpper(p[7]) && IsPunctuation(p[8]);
  }

  lemma {:induction false} ScoreLowerAndDigits()
    ensures Score("zsdf123") == 3
  {
    var p := "zsdf123";
    assert IsLower(p[0]) && IsDigit(p[4]);
    assert forall i :: 0 <= i < |p| ==> IsLower(p[i]) || IsDigit(p[i]);
    LowerAndDigitsOnly(p);
  }

  lemma {:induction false} ScoreDigitsOnly()
    ensures Score("123456") == 2
  {
    var p := "123456";
    assert IsDigit(p[0]);
    assert forall i :: 0 <= i < |p| ==> IsDigit(p[i]);
    LowerAndDigitsOnly(p);
  }

  lemma {:induction false} ScoreShortDigits()
    ensures Score("12") == 1
  {
    var p := "12";
    assert IsDigit(p[0]);
    assert forall i :: 0 <= i < |p| ==> IsDigit(p[i]);
    LowerAndDigitsOnly(p);
  }
}
