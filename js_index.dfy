/** JavaScript number arithmetic as the poem carousels use it: an integer index
    that turns into NaN once it is taken modulo an empty list length, and the
    `%` operator, which truncates toward zero (unlike Dafny's Euclidean `%`). */
module JsIndex {

  /** A JavaScript number restricted to the values an index can take. */
  datatype JsNum = Num(v: int) | NaN

  /** `a + k`; NaN stays NaN. */
  function Add(a: JsNum, k: int): JsNum {
    match a
    case Num(x) => Num(x + k)
    case NaN => NaN
  }

  function Abs(x: int): nat { if x < 0 then -x else x }

  /** JavaScript's `a % n`: NaN for a NaN operand or a zero divisor, otherwise
      the remainder of the division truncated toward zero, which carries the
      sign of the dividend. */
  function Rem(a: JsNum, n: int): (r: JsNum)
    ensures (a.NaN? || n == 0) <==> r.NaN?
    ensures a.Num? && n != 0 ==> Abs(r.v) < Abs(n)
    ensures a.Num? && n != 0 && a.v >= 0 ==> r.v >= 0
    ensures a.Num? && n != 0 && a.v <= 0 ==> r.v <= 0
    ensures a.Num? && a.v >= 0 && n > 0 ==> r.v == a.v % n
  {
    if a.NaN? || n == 0 then NaN
    else if a.v >= 0 then Num(a.v % Abs(n))
    else Num(-((-a.v) % Abs(n)))
  }

  predicate InRange(i: JsNum, n: int) {
    i.Num? && 0 <= i.v < n
  }

  /** `(currentIndex + 1) % poems.length`: NaN exactly when the index is NaN
      or the list is empty; an index in range stays in range. */
  function NextIndex(i: JsNum, n: int): (r: JsNum)
    ensures r.NaN? <==> i.NaN? || n == 0
    ensures InRange(i, n) ==> InRange(r, n)
  {
    Rem(Add(i, 1), n)
  }

  /** `(currentIndex - 1 + poems.length) % poems.length`: NaN exactly when
      the index is NaN or the list is empty; an index in range stays in range
      (adding the length first keeps the dividend non-negative). */
  function PrevIndex(i: JsNum, n: int): (r: JsNum)
    ensures r.NaN? <==> i.NaN? || n == 0
    ensures InRange(i, n) ==> InRange(r, n)
  {
    Rem(Add(Add(i, -1), n), n)
  }

  /** On a non-empty list both steps move to the neighbouring index, wrapping
      around at either end, and so stay in range. */
  lemma NavigationWraps(i: int, n: int)
    requires 0 <= i < n
    ensures NextIndex(Num(i), n) == Num(if i == n - 1 then 0 else i + 1)
    ensures PrevIndex(Num(i), n) == Num(if i == 0 then n - 1 else i - 1)
    ensures InRange(NextIndex(Num(i), n), n) && InRange(PrevIndex(Num(i), n), n)
  {
    SmallRem(if i == n - 1 then 0 else i + 1, i + 1, n);
    SmallRem(if i == 0 then n - 1 else i - 1, i - 1 + n, n);
  }

  /** A non-negative value below 2n that is congruent to r modulo n reduces to r. */
  lemma SmallRem(r: int, a: int, n: int)
    requires 0 <= r < n && 0 <= a < 2 * n && (a == r || a == r + n)
    ensures a % n == r
  {
    if a == r + n {
      assert (r + n) % n == r % n;
    }
  }

  /** Going forward then back, or back then forward, returns to the start. */
  lemma NextPrevInverse(i: int, n: int)
    requires 0 <= i < n
    ensures PrevIndex(NextIndex(Num(i), n), n) == Num(i)
    ensures NextIndex(PrevIndex(Num(i), n), n) == Num(i)
  {
    BackAfterForward(i, n);
    ForwardAfterBack(i, n);
  }

  lemma BackAfterForward(i: int, n: int)
    requires 0 <= i < n
    ensures PrevIndex(NextIndex(Num(i), n), n) == Num(i)
  {
    NavigationWraps(i, n);
    if i == n - 1 {
      NavigationWraps(0, n);
    } else {
      NavigationWraps(i + 1, n);
    }
  }

  lemma ForwardAfterBack(i: int, n: int)
    requires 0 <= i < n
    ensures NextIndex(PrevIndex(Num(i), n), n) == Num(i)
  {
    NavigationWraps(i, n);
    if i == 0 {
      NavigationWraps(n - 1, n);
    } else {
      NavigationWraps(i - 1, n);
    }
  }

  /** Stepping back from the first poem lands on the last one. */
  lemma PrevFromFirst(n: int)
    requires n >= 1
    ensures PrevIndex(Num(0), n) == Num(n - 1)
  {
    NavigationWraps(0, n);
  }
}
