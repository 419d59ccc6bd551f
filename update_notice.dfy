/** The update notice of js/script.js: a banner shown only on the day of the
    last update, which expands to show the date as 年/月/日 text and the
    newest poem. Dates arrive as `YYYY-MM-DD` strings. */
module UpdateNotice {

  import opened Wrappers

  /** The collapsed banner text. */
  const CollapsedText: string := "新作上线"

  // ---------------------------------------------------------------------
  // String.prototype.split with a one-character separator, and its inverse

  /** `parts.join(sep)` */
  function Join(parts: seq<string>, sep: char): string
    requires |parts| >= 1
    decreases |parts|
  {
    if |parts| == 1 then parts[0] else parts[0] + [sep] + Join(parts[1..], sep)
  }

  /** `s.split(sep)`: the maximal separator-free pieces, empty ones included,
      so that joining them back gives `s`. */
  function Split(s: string, sep: char): (parts: seq<string>)
    ensures |parts| >= 1
    ensures forall k :: 0 <= k < |parts| ==> sep !in parts[k]
    ensures Join(parts, sep) == s
    decreases |s|
  {
    if s == [] then [""]
    else
      var rest := Split(s[1..], sep);
      if s[0] == sep then
        assert Join([""] + rest, sep) == [sep] + Join(rest, sep) by {
          assert ([""] + rest)[1..] == rest;
        }
        [""] + rest
      else
        JoinConsChar(s[0], rest, sep);
        [[s[0]] + rest[0]] + rest[1..]
  }

  /** Prepending a character to the first piece prepends it to the join. */
  lemma JoinConsChar(c: char, parts: seq<string>, sep: char)
    requires |parts| >= 1
    ensures Join([[c] + parts[0]] + parts[1..], sep) == [c] + Join(parts, sep)
  {
    var ps := [[c] + parts[0]] + parts[1..];
    if |parts| > 1 {
      assert ps[1..] == parts[1..];
    }
  }

  /** Splitting undoes joining when no piece holds the separator. */
  lemma {:induction false} SplitJoin(parts: seq<string>, sep: char)
    requires |parts| >= 1
    requires forall k :: 0 <= k < |parts| ==> sep !in parts[k]
    ensures Split(Join(parts, sep), sep) == parts
    decreases |parts|
  {
    if |parts| == 1 {
      SplitPiece(parts[0], sep);
    } else {
      SplitJoin(parts[1..], sep);
      SplitAfterPiece(parts[0], Join(parts[1..], sep), sep);
      assert [parts[0]] + parts[1..] == parts;
    }
  }

  /** A separator-free string splits into itself. */
  lemma {:induction false} SplitPiece(a: string, sep: char)
    requires sep !in a
    ensures Split(a, sep) == [a]
    decreases |a|
  {
    if a != [] {
      SplitPiece(a[1..], sep);
      assert [a[0]] + a[1..] == a;
    }
  }

  /** A separator-free piece followed by the separator becomes the first part. */
  lemma {:induction false} SplitAfterPiece(a: string, t: string, sep: char)
    requires sep !in a
    ensures Split(a + [sep] + t, sep) == [a] + Split(t, sep)
    decreases |a|
  {
    if a == [] {
      assert a + [sep] + t == [sep] + t;
      assert ([sep] + t)[1..] == t;
    } else {
      var s := a + [sep] + t;
      assert s[0] == a[0] && s[1..] == a[1..] + [sep] + t;
      SplitAfterPiece(a[1..], t, sep);
      assert [a[0]] + a[1..] == a;
    }
  }

  // ---------------------------------------------------------------------
  // `${parseInt(s)}` for decimal text

  predicate IsDigit(c: char) { '0' <= c <= '9' }

  predicate AllDigits(d: string) { forall k :: 0 <= k < |d| ==> IsDigit(d[k]) }

  function DigitValue(c: char): nat requires IsDigit(c) { c as int - '0' as int }

  function Pow10(k: nat): nat { if k == 0 then 1 else 10 * Pow10(k - 1) }

  /** The number a digit string denotes, most significant digit first. */
  function Value(d: string): nat
    requires AllDigits(d)
  {
    if d == [] then 0 else DigitValue(d[0]) * Pow10(|d| - 1) + Value(d[1..])
  }

  /** The longest prefix of decimal digits. */
  function LeadingDigits(s: string): (d: string)
    ensures AllDigits(d) && d <= s
    ensures |d| < |s| ==> !IsDigit(s[|d|])
  {
    if s == [] || !IsDigit(s[0]) then [] else [s[0]] + LeadingDigits(s[1..])
  }

  /** The decimal text of a digit string's value: leading zeros dropped, a
      lone "0" kept. */
  function StripZeros(d: string): (r: string)
    requires AllDigits(d) && d != []
    ensures AllDigits(r) && r != [] && (|r| > 1 ==> r[0] != '0')
    ensures |r| <= |d| && r == d[|d| - |r|..]
    ensures forall k :: 0 <= k < |d| - |r| ==> d[k] == '0'
  {
    if |d| > 1 && d[0] == '0' then StripZeros(d[1..]) else d
  }

  /** Dropping leading zeros keeps the number the digits denote. */
  lemma {:induction false} StripZerosKeepsValue(d: string)
    requires AllDigits(d) && d != []
    ensures Value(StripZeros(d)) == Value(d)
    decreases |d|
  {
    if |d| > 1 && d[0] == '0' {
      assert Value(d) == Value(d[1..]);
      StripZerosKeepsValue(d[1..]);
    }
  }

  /** The text JavaScript prints for an integer: decimal digits without
      leading zeros, with a minus sign only in front of a non-zero value. */
  predicate IntegerText(t: string) {
    var negative := |t| > 0 && t[0] == '-';
    var m := if negative then t[1..] else t;
    AllDigits(m) && m != [] && (|m| > 1 ==> m[0] != '0') && (negative ==> m != "0")
  }

  /** `${parseInt(s)}`: an optional sign, then the leading digits; "NaN" when
      there are none. Negative zero prints as "0". The result is always NaN or
      an integer's text; text that starts with neither a sign nor a digit is
      NaN, text that starts with a digit is a number, and only a leading minus
      can make it negative. */
  function IntText(s: string): (r: string)
    ensures r == "NaN" || IntegerText(r)
    ensures (s == [] || (!IsDigit(s[0]) && s[0] != '-' && s[0] != '+')) ==> r == "NaN"
    ensures s != [] && IsDigit(s[0]) ==> IntegerText(r)
    ensures |r| > 0 && r[0] == '-' ==> s[0] == '-'
  {
    var negative := |s| > 0 && s[0] == '-';
    var body := if |s| > 0 && (s[0] == '-' || s[0] == '+') then s[1..] else s;
    var d := LeadingDigits(body);
    if d == [] then "NaN"
    else
      var m := StripZeros(d);
      if negative && m != "0" then "-" + m else m
  }

  /** For plain digit text, parseInt prints the same number without leading zeros. */
  lemma {:induction false} IntTextOfDigits(d: string)
    requires AllDigits(d) && d != []
    ensures IntText(d) == StripZeros(d)
  {
    LeadingDigitsOfDigits(d);
  }

  lemma {:induction false} LeadingDigitsOfDigits(d: string)
    requires AllDigits(d)
    ensures LeadingDigits(d) == d
    decreases |d|
  {
    if d != [] {
      LeadingDigitsOfDigits(d[1..]);
      assert [d[0]] + d[1..] == d;
    }
  }

  // ---------------------------------------------------------------------
  // The expanded notice text

  /** `dateParts[k]`, where a missing part is `undefined`, which parseInt
      reads as the text "undefined" and so prints as NaN. */
  function Part(parts: seq<string>, k: nat): (r: string)
    ensures k < |parts| ==> r == parts[k]
    ensures k >= |parts| ==> IntText(r) == "NaN"
  {
    if k < |parts| then parts[k] else "undefined"
  }

  /** `${p[0]}年${parseInt(p[1])}月${parseInt(p[2])}日` with `p = date.split('-')`.
      A date without any dash keeps the whole text as its year and shows
      month and day as NaN. */
  function FormatDate(date: string): (r: string)
    ensures '-' !in date ==> r == date + "年" + "NaN" + "月" + "NaN" + "日"
  {
    if '-' !in date then
      SplitPiece(date, '-');
      FormatParts(Split(date, '-'))
    else
      FormatParts(Split(date, '-'))
  }

  /** The text for the fields `p`: the first field copied verbatim and
      followed by 年, the whole closed by 日; with fewer than three fields
      the day reads NaN. */
  function FormatParts(p: seq<string>): (r: string)
    requires |p| >= 1
    ensures |r| > |p[0]| && r[..|p[0]|] == p[0] && r[|p[0]|] == '年'
    ensures r[|r| - 1] == '日'
    ensures |p| < 3 ==> |r| >= 4 && r[|r| - 4..] == "NaN日"
  {
    p[0] + "年" + IntText(Part(p, 1)) + "月" + IntText(Part(p, 2)) + "日"
  }

  /** The three-field date splits into its fields. */
  lemma {:induction false} SplitDigitDate(y: string, m: string, d: string)
    requires '-' !in y && '-' !in m && '-' !in d
    ensures Split(y + "-" + m + "-" + d, '-') == [y, m, d]
  {
    var parts := [y, m, d];
    assert parts[1..] == [m, d] && parts[1..][1..] == [d];
    assert Join([d], '-') == d;
    assert Join([m, d], '-') == m + "-" + d;
    assert Join(parts, '-') == y + "-" + (m + "-" + d);
    assert y + "-" + (m + "-" + d) == y + "-" + m + "-" + d;
    SplitJoin(parts, '-');
  }

  /** For `Y-M-D` with digit fields the month and day lose their leading
      zeros (keeping their values, by StripZerosKeepsValue); the year is
      copied unchanged. */
  lemma FormatDigitDate(y: string, m: string, d: string)
    requires AllDigits(y) && AllDigits(m) && AllDigits(d) && m != [] && d != []
    ensures FormatDate(y + "-" + m + "-" + d) == y + "年" + StripZeros(m) + "月" + StripZeros(d) + "日"
  {
    NoDashInDigits(y);
    NoDashInDigits(m);
    NoDashInDigits(d);
    SplitDigitDate(y, m, d);
    DigitFields(y, m, d);
  }

  lemma DigitFields(y: string, m: string, d: string)
    requires AllDigits(m) && AllDigits(d) && m != [] && d != []
    ensures FormatParts([y, m, d]) == y + "年" + StripZeros(m) + "月" + StripZeros(d) + "日"
  {
    var p := [y, m, d];
    assert Part(p, 1) == m && Part(p, 2) == d;
    var month, day := IntText(m), IntText(d);
    IntTextOfDigits(m);
    IntTextOfDigits(d);
    assert FormatParts(p) == y + "年" + month + "月" + day + "日";
  }

  lemma NoDashInDigits(s: string)
    requires AllDigits(s)
    ensures '-' !in s
  {
  }

  /** The example of the source comment: 2026-01-08 reads 2026年1月8日. */
  lemma FormatExample(y: string, m: string, d: string)
    requires y == "2026" && m == "01" && d == "08"
    ensures FormatDate(y + "-" + m + "-" + d) == "2026年1月8日"
  {
    assert AllDigits(y) && AllDigits(m) && AllDigits(d);
    OneLeadingZero(m, "1");
    OneLeadingZero(d, "8");
    ExampleText(y, "1", "8");
    DigitDateText(y, m, d, "1", "8", "2026年1月8日");
  }

  /** FormatDigitDate with the stripped fields and the text named. */
  lemma DigitDateText(y: string, m: string, d: string, month: string, day: string, t: string)
    requires AllDigits(y) && AllDigits(m) && AllDigits(d) && m != [] && d != []
    requires StripZeros(m) == month && StripZeros(d) == day && y + "年" + month + "月" + day + "日" == t
    ensures FormatDate(y + "-" + m + "-" + d) == t
  {
    FormatDigitDate(y, m, d);
  }

  /** A zero followed by one non-zero digit loses the zero. */
  lemma OneLeadingZero(s: string, r: string)
    requires |r| == 1 && IsDigit(r[0]) && r[0] != '0' && s == "0" + r
    ensures StripZeros(s) == r
  {
    assert s[1..] == r;
  }

  lemma ExampleText(y: string, month: string, day: string)
    requires y == "2026" && month == "1" && day == "8"
    ensures y + "年" + month + "月" + day + "日" == "2026年1月8日"
  {
  }

  /** A date missing its day field prints the day as NaN. */
  lemma MissingDayIsNaN(y: string, m: string)
    requires AllDigits(y) && AllDigits(m)
    ensures FormatDate(y + "-" + m) == y + "年" + IntText(m) + "月" + "NaN" + "日"
  {
    var parts := [y, m];
    SplitTwoFields(y, m);
    assert Part(parts, 1) == m;
    UndefinedIsNaN(Part(parts, 2));
  }

  lemma SplitTwoFields(y: string, m: string)
    requires AllDigits(y) && AllDigits(m)
    ensures Split(y + "-" + m, '-') == [y, m]
  {
    NoDashInDigits(y);
    NoDashInDigits(m);
    var parts := [y, m];
    assert parts[1..] == [m];
    assert Join(parts, '-') == y + "-" + m;
    SplitJoin(parts, '-');
  }

  /** parseInt of the text "undefined" is NaN. */
  lemma UndefinedIsNaN(s: string)
    requires s == "undefined"
    ensures IntText(s) == "NaN"
  {
    assert LeadingDigits(s) == [];
  }

  /** `toggleUpdateNotice`'s text: collapsed banner, or the formatted date (if
      the date has a dash) and the newest work. */
  function NoticeText(date: string, latestWork: string, expanded: bool): (r: string)
    ensures !expanded ==> r == CollapsedText
    ensures expanded ==> |r| >= |WorkLine(latestWork)| && r[|r| - |WorkLine(latestWork)|..] == WorkLine(latestWork)
    ensures expanded && '-' !in date ==> r == WorkLine(latestWork)
    ensures expanded && '-' in date ==> FormatDate(date) + "<br>" <= r
  {
    if !expanded then CollapsedText
    else if date != "" && '-' in date then
      var head, work := FormatDate(date) + "<br>", WorkLine(latestWork);
      assert (head + work)[|head|..] == work;
      head + work
    else WorkLine(latestWork)
  }

  /** The line naming the newest work. */
  function WorkLine(latestWork: string): string {
    "新作：" + latestWork
  }

  class Notice {
    var date: string
    var latestWork: string
    /** Whether the banner is displayed (`display: flex`). */
    var displayed: bool
    var expanded: bool
    var text: string

    /** The update fields of `loadPoems` (`data.lastUpdate || ''`), followed
        by `checkUpdateNotice` for the current day. */
    constructor (lastUpdate: Option<string>, latest: Option<string>, today: string)
      ensures date == lastUpdate.GetOr("") && latestWork == latest.GetOr("")
      ensures displayed <==> (date != "" && date == today)
      ensures !expanded && text == CollapsedText
    {
      var d := lastUpdate.GetOr("");
      date := d;
      latestWork := latest.GetOr("");
      expanded := false;
      text := CollapsedText;
      displayed := d != "" && today == d;
    }

    /** `checkUpdateNotice`: the banner shows only on the update day itself. */
    method CheckUpdateNotice(today: string)
      modifies this`displayed
      ensures displayed <==> (date != "" && date == today)
    {
      displayed := date != "" && today == date;
    }

    /** `toggleUpdateNotice`: flip between the collapsed and expanded text. */
    method ToggleUpdateNotice()
      modifies this`expanded, this`text
      ensures expanded == !old(expanded)
      ensures text == NoticeText(date, latestWork, expanded)
      ensures !expanded ==> text == CollapsedText
    {
      expanded := !expanded;
      text := NoticeText(date, latestWork, expanded);
    }
  }
}
