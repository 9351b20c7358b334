/**
 * `generate_password`: build the character pool from three flags, refuse an
 * empty pool, then draw `length` characters from it.
 */
module Generator {
  import opened CharClasses

  /** The one failure of generation: no character class was selected (Python's `ValueError`). */
  datatype GenerateError = NoCharacterClasses

  datatype Result<T> = Success(value: T) | Failure(error: GenerateError)

  /** Membership of `c` in one of the classes the flags select. */
  predicate InSelectedClass(c: char, useLetters: bool, useDigits: bool, useSpecials: bool) {
    || (useLetters && (IsLower(c) || IsUpper(c)))
    || (useDigits && IsDigit(c))
    || (useSpecials && IsPunctuation(c))
  }

  /** The pool: the selected class strings, in the order letters, digits, punctuation. */
  function Pool(useLetters: bool, useDigits: bool, useSpecials: bool): (r: string)
    ensures |r| == (if useLetters then 52 else 0) + (if useDigits then 10 else 0)
                 + (if useSpecials then 32 else 0)
    ensures r == [] <==> !useLetters && !useDigits && !useSpecials
    ensures useLetters ==> r[..52] == AsciiLetters
    ensures useDigits ==> r[(if useLetters then 52 else 0)..][..10] == Digits
    ensures useSpecials ==> r[|r| - 32..] == Punctuation
  {
    (if useLetters then AsciiLetters else "")
    + (if useDigits then Digits else "")
    + (if useSpecials then Punctuation else "")
  }

  /** A character is in the pool exactly when it belongs to a selected class. */
  lemma {:induction false} PoolMembership(c: char, useLetters: bool, useDigits: bool, useSpecials: bool)
    ensures c in Pool(useLetters, useDigits, useSpecials)
            <==> InSelectedClass(c, useLetters, useDigits, useSpecials)
  {
    LowercaseExactly(c);
    UppercaseExactly(c);
    DigitsExactly(c);
  }

  /** A string drawn from the pool holds only characters of the selected classes. */
  lemma {:induction false} DrawnFromSelectedClasses(s: string, useLetters: bool, useDigits: bool, useSpecials: bool)
    requires forall i :: 0 <= i < |s| ==> s[i] in Pool(useLetters, useDigits, useSpecials)
    ensures forall i :: 0 <= i < |s| ==> InSelectedClass(s[i], useLetters, useDigits, useSpecials)
  {
    forall i | 0 <= i < |s| ensures InSelectedClass(s[i], useLetters, useDigits, useSpecials) {
      PoolMembership(s[i], useLetters, useDigits, useSpecials);
    }
  }

  /**
   * No character occurs twice in the pool, so a uniform choice of a pool
   * position is a uniform choice among the selected characters.
   */
  lemma {:induction false} PoolDistinct(useLetters: bool, useDigits: bool, useSpecials: bool)
    ensures Distinct(Pool(useLetters, useDigits, useSpecials))
  {
    ClassesDistinct();
    var letters := if useLetters then AsciiLetters else "";
    var digits := if useDigits then Digits else "";
    var specials := if useSpecials then Punctuation else "";
    forall c | c in letters ensures c !in digits {
      LowercaseExactly(c);
      UppercaseExactly(c);
      DigitsExactly(c);
    }
    ConcatDistinct(letters, digits);
    forall c | c in letters + digits ensures c !in specials {
      LowercaseExactly(c);
      UppercaseExactly(c);
      DigitsExactly(c);
      PunctuationExactly(c);
    }
    ConcatDistinct(letters + digits, specials);
  }

  /**
   * Generates a password of `length` characters (none when `length` is not
   * positive, as Python's `range` yields nothing then). Each character is an
   * arbitrary pick from the pool: the secure random source is not modelled.
   */
  method GeneratePassword(length: int, useLetters: bool, useDigits: bool, useSpecials: bool)
    returns (r: Result<string>)
    ensures r.Failure? <==> !useLetters && !useDigits && !useSpecials
    ensures r.Success? ==> |r.value| == (if length > 0 then length else 0)
    ensures r.Success? ==>
      forall i :: 0 <= i < |r.value| ==> r.value[i] in Pool(useLetters, useDigits, useSpecials)
    ensures r.Success? ==>
      forall i :: 0 <= i < |r.value| ==> InSelectedClass(r.value[i], useLetters, useDigits, useSpecials)
  {
    var characters := "";
    if useLetters {
      characters := characters + AsciiLetters;
    }
    if useDigits {
      characters := characters + Digits;
    }
    if useSpecials {
      characters := characters + Punctuation;
    }
    assert characters == Pool(useLetters, useDigits, useSpecials);
    if characters == "" {
      return Failure(NoCharacterClasses);
    }
    var password := "";
    var n := 0;
    while n < length
      invariant n == |password|
      invariant n <= (if length > 0 then length else 0)
      invariant forall i :: 0 <= i < |password| ==> password[i] in characters
    {
      assert characters[0] in characters;
      var c :| c in characters;
      password := password + [c];
      n := n + 1;
    }
    DrawnFromSelectedClasses(password, useLetters, useDigits, useSpecials);
    return Success(password);
  }
}
