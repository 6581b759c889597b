/**
 * The two string facilities the engine relies on: the ordinal
 * case-insensitive comparison (`StringComparison.OrdinalIgnoreCase`,
 * `StringComparer.OrdinalIgnoreCase`) and `string.IsNullOrWhiteSpace`.
 */
module Text {

  /**
   * Upper-cases one UTF-16 code unit the way an ordinal case-insensitive
   * comparison does, for the letters the game's vocabulary uses: ASCII a-z
   * and the Cyrillic block U+0430..U+045F.
   */
  function FoldChar(c: char): (u: char)
    ensures 'a' <= c <= 'z' ==> 'A' <= u <= 'Z' && u as int == c as int - 32
    ensures '\U{0430}' <= c <= '\U{044F}' ==> '\U{0410}' <= u <= '\U{042F}' && u as int == c as int - 32
    ensures '\U{0450}' <= c <= '\U{045F}' ==> '\U{0400}' <= u <= '\U{040F}' && u as int == c as int - 80
    ensures !('a' <= c <= 'z' || '\U{0430}' <= c <= '\U{045F}') ==> u == c
    ensures 'A' <= u <= 'Z' ==> 'A' <= c <= 'Z' || 'a' <= c <= 'z'
  {
    if 'a' <= c <= 'z' then (c as int - 32) as char
    else if 'а' <= c <= 'я' then (c as int - 32) as char
    else if 'ѐ' <= c <= 'џ' then (c as int - 80) as char
    else c
  }

  /** Folds a whole string code unit by code unit; ordinal comparison never changes lengths. */
  function Fold(s: string): (r: string)
    ensures |r| == |s|
    ensures forall i :: 0 <= i < |s| ==> r[i] == FoldChar(s[i])
  {
    seq(|s|, i requires 0 <= i < |s| => FoldChar(s[i]))
  }

  /** `a.Equals(b, StringComparison.OrdinalIgnoreCase)`. */
  predicate EqualsIgnoreCase(a: string, b: string)
  {
    Fold(a) == Fold(b)
  }

  lemma FoldCharIdempotent(c: char)
    ensures FoldChar(FoldChar(c)) == FoldChar(c)
  {
  }

  /** Folding twice is folding once, so a folded dictionary key folds to itself. */
  lemma FoldIdempotent(s: string)
    ensures Fold(Fold(s)) == Fold(s)
  {
    forall i | 0 <= i < |s|
      ensures Fold(Fold(s))[i] == Fold(s)[i]
    {
      FoldCharIdempotent(s[i]);
    }
  }

  /** The characters `char.IsWhiteSpace` accepts. */
  predicate IsWhiteSpace(c: char)
  {
    || ('\U{0009}' <= c <= '\U{000D}') || c == '\U{0020}' || c == '\U{0085}' || c == '\U{00A0}'
    || c == '\U{1680}' || ('\U{2000}' <= c <= '\U{200A}') || c == '\U{2028}' || c == '\U{2029}'
    || c == '\U{202F}' || c == '\U{205F}' || c == '\U{3000}'
  }

  /** `string.IsNullOrWhiteSpace` on a non-null string: empty or whitespace only. */
  predicate IsBlank(s: string)
  {
    forall i :: 0 <= i < |s| ==> IsWhiteSpace(s[i])
  }
}
