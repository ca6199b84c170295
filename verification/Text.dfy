/** String operations of the Go library that the models rely on. Strings are sequences of bytes or runes. */
module Text {

  predicate OccursAt(s: string, w: string, i: int) {
    0 <= i && i + |w| <= |s| && s[i..i + |w|] == w
  }

  /** strings.Contains */
  predicate Contains(s: string, w: string) {
    exists i | 0 <= i <= |s| - |w| :: OccursAt(s, w, i)
  }

  /** The first occurrence of `w` at or after `from`, or -1. */
  function IndexFrom(s: string, w: string, from: nat): (r: int)
    requires from <= |s|
    ensures r == -1 || (from <= r && OccursAt(s, w, r))
    ensures forall i | from <= i && (r == -1 || i < r) :: !OccursAt(s, w, i)
    decreases |s| - from
  {
    if OccursAt(s, w, from) then from
    else if from == |s| then -1
    else IndexFrom(s, w, from + 1)
  }

  /** strings.Index */
  function Index(s: string, w: string): (r: int)
    ensures r == -1 || (0 <= r && r + |w| <= |s|)
  {
    IndexFrom(s, w, 0)
  }

  lemma IndexIsFirst(s: string, w: string)
    ensures Index(s, w) == -1 || OccursAt(s, w, Index(s, w))
    ensures forall i | 0 <= i && (Index(s, w) == -1 || i < Index(s, w)) :: !OccursAt(s, w, i)
  {
  }

  lemma ContainsAt(s: string, w: string, i: int)
    requires OccursAt(s, w, i)
    ensures Contains(s, w)
  {
  }
}
