/** ASCII letter case, the only case folding that names are compared with. */
module Ascii {
  function LowerChar(c: char): (l: char)
    ensures !('A' <= l <= 'Z')
  {
    if 'A' <= c <= 'Z' then c - 'A' + 'a' else c
  }

  function Fold(s: string): (t: string)
    ensures |t| == |s|
    ensures forall i | 0 <= i < |s| :: t[i] == LowerChar(s[i])
  {
    if s == "" then "" else [LowerChar(s[0])] + Fold(s[1..])
  }

  /** `eq_ignore_ascii_case` */
  predicate SameName(a: string, b: string) { Fold(a) == Fold(b) }

  lemma FoldLower(s: string)
    requires forall i | 0 <= i < |s| :: !('A' <= s[i] <= 'Z')
    ensures Fold(s) == s
  {
  }
}
