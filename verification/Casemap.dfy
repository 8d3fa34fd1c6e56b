/** Case folding of nicks and channel names (crates/obby-proto/src/casemap.rs:37-53). */
module Casemap {

  datatype Casemapping = Ascii | Rfc1459 | Rfc1459Strict

  function FoldChar(mapping: Casemapping, c: char): char {
    if 'A' <= c <= 'Z' then (c as int + 32) as char
    else if mapping != Ascii && c == '[' then '{'
    else if mapping != Ascii && c == ']' then '}'
    else if mapping != Ascii && c == '\\' then '|'
    else if mapping == Rfc1459 && c == '~' then '^'
    else c
  }

  function Fold(mapping: Casemapping, name: string): (folded: string)
    ensures |folded| == |name|
  {
    seq(|name|, i requires 0 <= i < |name| => FoldChar(mapping, name[i]))
  }

  predicate SameName(mapping: Casemapping, a: string, b: string) {
    Fold(mapping, a) == Fold(mapping, b)
  }

  /** A folded name folds to itself. */
  lemma FoldTwice(mapping: Casemapping, name: string)
    ensures Fold(mapping, Fold(mapping, name)) == Fold(mapping, name)
  {
  }

  /** The pairs of characters each mapping makes one letter of, besides the letters themselves. */
  function Brackets(mapping: Casemapping): seq<(char, char)> {
    match mapping
    case Ascii => []
    case Rfc1459Strict => [('[', '{'), (']', '}'), ('\\', '|')]
    case Rfc1459 => [('[', '{'), (']', '}'), ('\\', '|'), ('~', '^')]
  }

  predicate Paired(mapping: Casemapping, upper: char, lower: char) {
    || ('A' <= upper <= 'Z' && 'a' <= lower <= 'z' && upper as int - 'A' as int == lower as int - 'a' as int)
    || (upper, lower) in Brackets(mapping)
  }

  /** One character, or the two of a pair. */
  predicate Alike(mapping: Casemapping, c: char, d: char) {
    c == d || Paired(mapping, c, d) || Paired(mapping, d, c)
  }

  lemma FoldsAlikeIff(mapping: Casemapping, c: char, d: char)
    ensures FoldChar(mapping, c) == FoldChar(mapping, d) <==> Alike(mapping, c, d)
  {
  }

  /** Two names are one exactly when they have the same length and are alike at every place. */
  lemma SameNameIff(mapping: Casemapping, a: string, b: string)
    ensures SameName(mapping, a, b) <==> |a| == |b| && forall i | 0 <= i < |a| :: Alike(mapping, a[i], b[i])
  {
    forall i | 0 <= i < |a| && i < |b| ensures Fold(mapping, a)[i] == Fold(mapping, b)[i] <==> Alike(mapping, a[i], b[i]) {
      FoldsAlikeIff(mapping, a[i], b[i]);
    }
    if |a| == |b| && forall i | 0 <= i < |a| :: Alike(mapping, a[i], b[i]) {
      assert Fold(mapping, a) == Fold(mapping, b);
    }
  }
}
