/** `mask_password`: the password shown as one `*` per character. */
module Mask {

  /** `c * n` in Python for a one-character string `c` */
  function Repeat(c: char, n: nat): (r: string)
    ensures |r| == n
    ensures forall i :: 0 <= i < n ==> r[i] == c
  {
    if n == 0 then "" else [c] + Repeat(c, n - 1)
  }

  /** `mask_password(password)` */
  function MaskPassword(password: string): (r: string)
    ensures |r| == |password|
    ensures forall i :: 0 <= i < |r| ==> r[i] == '*'
  {
    Repeat('*', |password|)
  }

  /** The mask reveals the length and nothing else. */
  lemma {:induction false} MaskRevealsOnlyLength(p: string, q: string)
    ensures MaskPassword(p) == MaskPassword(q) <==> |p| == |q|
  {
  }

  /** Masking a masked password changes nothing. */
  lemma {:induction false} MaskIdempotent(password: string)
    ensures MaskPassword(MaskPassword(password)) == MaskPassword(password)
  {
  }

  /** The expected mask of the repository's unit test. */
  lemma {:induction false} MaskExample()
    ensures MaskPassword("1234567axd") == "**********"
  {
  }
}
