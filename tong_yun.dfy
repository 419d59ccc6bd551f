/** The rhyme-scheme annotation 通韵 ("mixed rhyme") that a poem title may
    carry in half-width or full-width brackets, and its removal for display.
    Both poem pages use the same non-global pattern `[(（]通韵[)）]`, so only
    the first occurrence is removed. */
module TongYun {

  import opened Wrappers

  /** Length of the matched token: bracket, 通, 韵, bracket. */
  const TokenLength: nat := 4

  predicate IsOpen(c: char) { c == '(' || c == '（' }

  predicate IsClose(c: char) { c == ')' || c == '）' }

  /** The pattern matches `title` at position `i`. */
  predicate AnnotationAt(title: string, i: int) {
    0 <= i && i + TokenLength <= |title|
    && IsOpen(title[i]) && title[i + 1] == '通' && title[i + 2] == '韵' && IsClose(title[i + 3])
  }

  /** `i` is the leftmost position where the pattern matches. */
  predicate FirstAnnotationAt(title: string, i: int) {
    AnnotationAt(title, i) && forall j :: 0 <= j < i ==> !AnnotationAt(title, j)
  }

  predicate HasAnnotation(title: string) {
    exists i :: 0 <= i < |title| && AnnotationAt(title, i)
  }

  /** The regular-expression search, scanning left to right from `from`. */
  function FindFrom(title: string, from: nat): (r: Option<nat>)
    requires from <= |title|
    ensures r.Some? ==> from <= r.value && AnnotationAt(title, r.value)
    ensures r.Some? ==> forall j :: from <= j < r.value ==> !AnnotationAt(title, j)
    ensures r.None? ==> forall j :: from <= j < |title| ==> !AnnotationAt(title, j)
    decreases |title| - from
  {
    if from + TokenLength > |title| then None
    else if AnnotationAt(title, from) then Some(from)
    else FindFrom(title, from + 1)
  }

  /** `title.replace(/[(（]通韵[)）]/, "")`: the first match is cut out and the
      rest of the title is kept; a title without a match is returned as is. */
  function Strip(title: string): (r: string)
    ensures forall i :: FirstAnnotationAt(title, i) ==> r == title[..i] + title[i + TokenLength..]
    ensures HasAnnotation(title) ==> |r| == |title| - TokenLength
    ensures !HasAnnotation(title) ==> r == title
  {
    match FindFrom(title, 0)
    case None => title
    case Some(i) => title[..i] + title[i + TokenLength..]
  }

  /** The replacement is not global: when the title carries the annotation
      twice, the second copy survives, shifted left by the removed token. */
  lemma {:induction false} OnlyFirstRemoved(title: string, i: nat, j: nat)
    requires FirstAnnotationAt(title, i) && AnnotationAt(title, j) && i + TokenLength <= j
    ensures AnnotationAt(Strip(title), j - TokenLength)
  {
    var r := Strip(title);
    assert r == title[..i] + title[i + TokenLength..];
    var k := j - TokenLength;
    assert forall m :: i <= m < |r| ==> r[m] == title[m + TokenLength];
    assert r[k] == title[j] && r[k + 1] == title[j + 1] && r[k + 2] == title[j + 2] && r[k + 3] == title[j + 3];
  }
}
