/** The hidden visitor-statistics gesture of js/script.js: five clicks on the
    site title, each at most one second after the previous one, reveal the
    counters. Times are the millisecond clock readings of each click. */
module SecretClicks {

  /** Clicks needed to reveal the counters. */
  const Needed: int := 5
  /** Largest gap between clicks, in milliseconds, that keeps the count. */
  const MaxGap: int := 1000

  /** `clickCount` and `lastClickTime` of the click handler's closure. */
  datatype Clicks = Clicks(count: int, last: int)

  datatype Outcome = Outcome(next: Clicks, revealed: bool)

  /** One click at time `now`: a gap over one second restarts the count; the
      fifth click in a row reveals the counters and resets the count. */
  function Click(c: Clicks, now: int): (o: Outcome)
    ensures o.next.last == now
    ensures o.revealed <==> (now - c.last <= MaxGap && c.count == Needed - 1)
    ensures !o.revealed ==> o.next.count == (if now - c.last > MaxGap then 1 else c.count + 1)
    ensures o.revealed ==> o.next.count == 0
  {
    var base := if now - c.last > MaxGap then 0 else c.count;
    var count := base + 1;
    if count == Needed then Outcome(Clicks(0, now), true) else Outcome(Clicks(count, now), false)
  }

  /** The count always lies in 0..4, starting from the initial 0. */
  ghost predicate Reachable(c: Clicks) {
    0 <= c.count < Needed
  }

  lemma ClickKeepsCountInRange(c: Clicks, now: int)
    requires Reachable(c)
    ensures Reachable(Click(c, now).next)
  {
  }

  /** The clicks of a sequence, in order; the result holds the final state and
      the reveal flag of each click. */
  function Run(c: Clicks, times: seq<int>): (r: (Clicks, seq<bool>))
    ensures |r.1| == |times|
    decreases |times|
  {
    if times == [] then (c, [])
    else
      var o := Click(c, times[0]);
      var rest := Run(o.next, times[1..]);
      (rest.0, [o.revealed] + rest.1)
  }

  /** Each gap of a click sequence is at most one second. */
  predicate Quick(times: seq<int>) {
    forall i :: 0 < i < |times| ==> times[i] - times[i - 1] <= MaxGap
  }

  /** After a pause of more than a second (or from the start-up state), five
      quick clicks reveal the counters on the fifth click and not before. */
  lemma {:induction false} FiveQuickClicksReveal(c: Clicks, times: seq<int>)
    requires Reachable(c)
    requires |times| == 5 && Quick(times) && times[0] - c.last > MaxGap
    ensures Run(c, times).1 == [false, false, false, false, true]
    ensures Run(c, times).0 == Clicks(0, times[4])
  {
    var t := times;
    var o0 := Click(c, t[0]);
    var o1 := Click(o0.next, t[1]);
    var o2 := Click(o1.next, t[2]);
    var o3 := Click(o2.next, t[3]);
    var o4 := Click(o3.next, t[4]);
    assert t[1] - t[0] <= MaxGap && t[2] - t[1] <= MaxGap && t[3] - t[2] <= MaxGap && t[4] - t[3] <= MaxGap;
    assert o3.next == Clicks(4, t[3]) && !o0.revealed && !o1.revealed && !o2.revealed && !o3.revealed;
    assert o4.next == Clicks(0, t[4]) && o4.revealed;
    assert t[4..][0] == t[4] && t[3..][0] == t[3] && t[2..][0] == t[2] && t[1..][0] == t[1];
    assert t[4..][1..] == [] && t[3..][1..] == t[4..] && t[2..][1..] == t[3..] && t[1..][1..] == t[2..];
    assert Run(o4.next, t[4..][1..]) == (o4.next, []);
    assert [true] + [] == [true] && [false] + [true] == [false, true];
    assert [false] + [false, true] == [false, false, true];
    assert [false] + [false, false, true] == [false, false, false, true];
    assert [false] + [false, false, false, true] == [false, false, false, false, true];
    assert Run(o3.next, t[4..]) == (Clicks(0, t[4]), [true]);
    assert Run(o2.next, t[3..]) == (Clicks(0, t[4]), [false, true]);
    assert Run(o1.next, t[2..]) == (Clicks(0, t[4]), [false, false, true]);
    assert Run(o0.next, t[1..]) == (Clicks(0, t[4]), [false, false, false, true]);
  }

  /** A reveal needs a run of quick clicks: when a click reveals, it and the
      three clicks before it each came at most a second after their
      predecessor. */
  lemma {:induction false} RevealNeedsQuickRun(c: Clicks, times: seq<int>, k: nat)
    requires Reachable(c)
    requires k < |times| && Run(c, times).1[k]
    ensures forall i :: 0 < i <= k && k - i < Needed - 1 ==> times[i] - times[i - 1] <= MaxGap
    decreases |times|
  {
    var o := Click(c, times[0]);
    if k == 0 {
      assert o.revealed;
    } else {
      var rest := times[1..];
      assert Run(c, times).1[k] == Run(o.next, rest).1[k - 1];
      ClickKeepsCountInRange(c, times[0]);
      RevealNeedsQuickRun(o.next, rest, k - 1);
      forall i | 0 < i <= k && k - i < Needed - 1
        ensures times[i] - times[i - 1] <= MaxGap
      {
        if i > 1 {
          assert rest[i - 1] == times[i] && rest[i - 2] == times[i - 1];
        } else {
          // the first gap inside the run: the click at times[1] found the
          // count left by times[0], which must have been kept
          CountAfterClickNeedsGap(o.next, rest, k - 1);
        }
      }
    }
  }

  /** A reveal within the first four clicks of a run needs the first of
      them to come within a second of the click before the run. */
  lemma {:induction false} CountAfterClickNeedsGap(c: Clicks, times: seq<int>, k: nat)
    requires Reachable(c)
    requires k < |times| && Run(c, times).1[k] && k < Needed - 1
    ensures times[0] - c.last <= MaxGap
    decreases |times|
  {
    var o := Click(c, times[0]);
    if k == 0 {
      assert o.revealed;
    } else {
      assert Run(c, times).1[k] == Run(o.next, times[1..]).1[k - 1];
      ClickKeepsCountInRange(c, times[0]);
      RevealCarriedCount(o.next, times[1..], k - 1);
    }
  }

  /** A reveal at click k (counting from 0) of a run needs a count of at
      least 4 - k carried into the run. */
  lemma {:induction false} RevealCarriedCount(c: Clicks, times: seq<int>, k: nat)
    requires Reachable(c)
    requires k < |times| && Run(c, times).1[k]
    ensures c.count >= Needed - 1 - k
    decreases |times|
  {
    var o := Click(c, times[0]);
    if k > 0 {
      assert Run(c, times).1[k] == Run(o.next, times[1..]).1[k - 1];
      ClickKeepsCountInRange(c, times[0]);
      RevealCarriedCount(o.next, times[1..], k - 1);
    }
  }

  class TitleClicks {
    var clickCount: int
    var lastClickTime: int

    constructor ()
      ensures clickCount == 0 && lastClickTime == 0
    {
      clickCount := 0;
      lastClickTime := 0;
    }

    /** The title's click handler at clock reading `now`. */
    method OnClick(now: int) returns (revealed: bool)
      modifies this
      ensures Click(Clicks(old(clickCount), old(lastClickTime)), now) == Outcome(Clicks(clickCount, lastClickTime), revealed)
    {
      if now - lastClickTime > MaxGap {
        clickCount := 0;
      }
      clickCount := clickCount + 1;
      lastClickTime := now;
      revealed := false;
      if clickCount == Needed {
        clickCount := 0;
        revealed := true;
      }
    }
  }
}
