# Password generator — verified model

A Dafny model of the logic of a small Python password tool (`main.py`):

- **generation** (`generate_password`): the character pool is built from three
  flags — ASCII letters, then digits, then ASCII punctuation — an empty pool is
  refused with an error, and `length` characters are drawn from the pool;
- **strength assessment** (`assess_password_strength`): a score from 0 to 4, a
  length term (`min(1, len // 4)`) plus one point for each of lowercase,
  uppercase, digit and punctuation that occurs, capped at 4;
- **masking** (`mask_password`): one `*` per character.

Modules: `CharClasses` (`char_classes.dfy`) holds Python's `string.ascii_letters`,
`string.digits` and `string.punctuation` and the ASCII cases of `islower`, `isupper`
and `isdigit`; `Generator` (`generator.dfy`), `Strength` (`strength.dfy`) and `Mask`
(`mask.dfy`) hold the three functions.

`generate_password` builds its pool step by step and draws with a loop, so it is the
method `Generator.GeneratePassword`, which appends to the pool under the three flags,
returns `Failure(NoCharacterClasses)` where the source raises `ValueError`, and then
appends one drawn character per iteration. The secure random draw `secrets.choice` is
an arbitrary choice (`:|`) of a pool character: the contract holds whatever is drawn.
The scorer and the masker are pure expressions in the source and are functions here.

The interactive prompt guarantees `length > 0` before generation. The model does not
need that: like Python's `range`, a length of zero or less yields the empty password.

## Model

| member | source | states |
|---|---|---|
| `CharClasses.LowercaseExactly` | main.py:8 | a character is in the lowercase half of `string.ascii_letters` exactly when it lies in `a`..`z` |
| `CharClasses.UppercaseExactly` | main.py:8 | a character is in the uppercase half of `string.ascii_letters` exactly when it lies in `A`..`Z` |
| `CharClasses.DigitsExactly` | main.py:10 | a character is in `string.digits` exactly when it lies in `0`..`9` |
| `CharClasses.PunctuationExactly` | main.py:12 | `string.punctuation` is exactly the four ASCII punctuation ranges `!`..`/`, `:`..`@`, `[`..`` ` `` and `{`..`~` |
| `CharClasses.ClassesAscending` | main.py:6-12 | each class string lists its characters in strictly increasing code order |
| `CharClasses.AscendingDistinct` | main.py:6-12 | a string whose neighbours strictly increase is strictly increasing everywhere and has no repeated character |
| `CharClasses.ConcatDistinct` | main.py:6-12 | concatenating two repeat-free strings with no character in common gives a repeat-free string |
| `CharClasses.ClassesDistinct` | main.py:6-12 | no class string, `string.ascii_letters` included, repeats a character |
| `Generator.Pool` | main.py:6-12 | the pool has 52, 10 and 32 characters for letters, digits and punctuation when selected, letters first, digits next and punctuation last, and is empty exactly when no class is selected |
| `Generator.PoolMembership` | main.py:6-12 | a character is in the pool exactly when it belongs to a selected class |
| `Generator.PoolDistinct` | main.py:6-12 | no character occurs twice in the pool, so a uniform pick of a pool position is a uniform pick among the selected characters |
| `Generator.DrawnFromSelectedClasses` | main.py:15 | a string whose characters come from the pool holds only characters of the selected classes |
| `Generator.GeneratePassword` | main.py:5-15 | fails exactly when no class is selected, whatever the length; otherwise returns exactly `length` characters (none for a length of zero or less), each in the pool and so in a selected class |
| `Strength.LengthScore` | main.py:37 | the length term is 1 exactly when the password has at least four characters and 0 otherwise |
| `Strength.VarietyScore` | main.py:38-41 | the variety term is at most 4; it is 0 exactly when no class occurs and 4 exactly when all four classes occur |
| `Strength.Score` | main.py:36-43 | the score lies in 0..4, is 0 for the empty password, is never below the variety term and equals it for passwords shorter than four characters |
| `Strength.LongPasswordsScoreVariety` | main.py:37 | from four characters on, the score is `min(4, 1 + variety)`: further length adds nothing |
| `Strength.SameCharactersSameClasses` | main.py:38-41 | every class found in one password is found in any password holding all its characters |
| `Strength.ScoreDependsOnCharactersAndThreshold` | main.py:36-43 | two passwords over the same set of characters, both shorter than four or both not, get the same score |
| `Strength.ScoreMonotone` | main.py:36-43 | appending characters never lowers the score |
| `Strength.TopScore` | main.py:36-43 | the score is 4 exactly when all four classes occur, or three occur and the password has at least four characters |
| `Strength.LowerAndDigitsOnly` | main.py:39-41 | a password of lowercase letters and digits has no uppercase letter and no punctuation |
| `Strength.ScoreAllClasses` | test_main.py:15 | `"zsdf123A@!pokj"` scores 4 |
| `Strength.ScoreLowerAndDigits` | test_main.py:16 | `"zsdf123"` scores 3 |
| `Strength.ScoreDigitsOnly` | test_main.py:17 | `"123456"` scores 2 |
| `Strength.ScoreShortDigits` | test_main.py:18 | `"12"` scores 1 |
| `Mask.Repeat` | main.py:47 | string repetition of one character `n` times has length `n` and that character at every position |
| `Mask.MaskPassword` | main.py:46-47 | the mask has the password's length and a `*` at every position |
| `Mask.MaskRevealsOnlyLength` | main.py:46-47 | two passwords have the same mask exactly when they have the same length |
| `Mask.MaskIdempotent` | main.py:46-47 | masking a mask gives the same mask |
| `Mask.MaskExample` | test_main.py:21 | `"1234567axd"` masks to `"**********"` |

## Left out

- `get_user_preferences` (main.py:18-28): console input loop; its guarantee `length > 0` is not needed by the model, which also covers non-positive lengths.
- `save_password_to_file` (main.py:31-33): appending to a file is I/O.
- `main` (main.py:50-69): console orchestration and printing of the error message.
- `Generator.GeneratePassword`: the draw is an arbitrary pool character; the uniformity and unpredictability of `secrets.choice` cannot be stated in this model (`Generator.PoolDistinct` is the part of uniformity that can).
- `CharClasses.IsLower`, `CharClasses.IsUpper`, `CharClasses.IsDigit`: only the ASCII ranges; Python's `str.islower`, `str.isupper` and `str.isdigit` also accept non-ASCII letters and digits, which the model scores as belonging to no class.
- The error message text of the `ValueError` is not modelled; the error is the single constructor `NoCharacterClasses`.
- The `test_get_user_preferences` and `test_save_password_to_file` tests (test_main.py:23-38) exercise I/O and are not modelled.
