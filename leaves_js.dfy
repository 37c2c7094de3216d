/** The balance panel of static/js/leaves.js: each remaining amount, in hours, is
    shown as days and hours at 8 hours a day, one line per balance, with the list
    rebuilt from the response on every refresh. The AJAX call and the DOM are
    not modelled; the list is a sequence of lines. */
module LeavesJs {
  import opened Basics

  /** Hours per day the display divides by. */
  const HoursPerDay: int := 8

  /** `Math.floor(remaining_amount / 8)`: the largest d with 8*d <= amount. */
  function RemainingDays(amount: int): (d: int)
    ensures d * HoursPerDay <= amount < d * HoursPerDay + HoursPerDay
  {
    // Dafny's division is Euclidean, which is the floor for a positive divisor
    amount / HoursPerDay
  }

  /** `remaining_amount % 8`: JavaScript's remainder truncates toward zero, so it
      takes the sign of the amount. */
  function RemainingHours(amount: int): (h: int)
    ensures amount >= 0 ==> 0 <= h < HoursPerDay
    ensures amount < 0 ==> -HoursPerDay < h <= 0
    ensures (amount - h) % HoursPerDay == 0
  {
    if amount >= 0 then amount % HoursPerDay else -((-amount) % HoursPerDay)
  }

  /** For a non-negative amount the two parts add back up to the amount. */
  lemma SplitAddsUp(amount: int)
    requires amount >= 0
    ensures RemainingDays(amount) * HoursPerDay + RemainingHours(amount) == amount
    ensures 0 <= RemainingHours(amount) < HoursPerDay
  {
  }

  /** For a negative amount that is not whole days, floor and truncation round in
      opposite directions: the parts add up to a full day less than the amount
      (-3 hours is shown as -1 day and -3 hours). */
  lemma NegativeSplitIsOffByADay(amount: int)
    requires amount < 0 && amount % HoursPerDay != 0
    ensures RemainingDays(amount) * HoursPerDay + RemainingHours(amount) == amount - HoursPerDay
  {
    var q, r := (-amount) / HoursPerDay, (-amount) % HoursPerDay;
    assert -amount == HoursPerDay * q + r && 0 < r < HoursPerDay;
    assert RemainingHours(amount) == -r;
    assert amount == HoursPerDay * (-q - 1) + (HoursPerDay - r);
    assert RemainingDays(amount) == -q - 1;
  }

  lemma MinusThreeHours()
    ensures RemainingDays(-3) == -1 && RemainingHours(-3) == -3
  {
  }

  // ---------------------------------------------------------------------------
  // Number formatting, as `${n}` does for an integer
  // ---------------------------------------------------------------------------

  predicate IsDigit(c: char)
  {
    '0' <= c <= '9'
  }

  function DigitChar(d: int): (c: char)
    requires 0 <= d < 10
    ensures IsDigit(c) && c as int - '0' as int == d
  {
    (d + '0' as int) as char
  }

  /** Decimal digits of a natural number, most significant first, without
      leading zeros. */
  function NatToString(n: nat): (s: string)
    ensures |s| >= 1
    ensures forall i :: 0 <= i < |s| ==> IsDigit(s[i])
    ensures |s| > 1 ==> s[0] != '0'
    decreases n
  {
    if n < 10 then [DigitChar(n)] else NatToString(n / 10) + [DigitChar(n % 10)]
  }

  /** The value of a string of decimal digits. */
  function DigitsValue(s: string): (v: int)
    requires forall i :: 0 <= i < |s| ==> IsDigit(s[i])
    ensures v >= 0
    decreases |s|
  {
    if |s| == 0 then 0
    else
      assert IsDigit(s[|s| - 1]);
      DigitsValue(s[..|s| - 1]) * 10 + (s[|s| - 1] as int - '0' as int)
  }

  lemma {:induction false} NatToStringRoundTrip(n: nat)
    ensures DigitsValue(NatToString(n)) == n
    decreases n
  {
    if n >= 10 {
      NatToStringRoundTrip(n / 10);
      var s := NatToString(n);
      assert s[..|s| - 1] == NatToString(n / 10);
    }
  }

  /** A JavaScript integer's decimal form: a minus sign for a negative value. */
  function IntToString(i: int): (s: string)
    ensures |s| >= 1
    ensures forall k :: 0 <= k < |s| ==> IsDigit(s[k]) || s[k] == '-'
    ensures (s[0] == '-') <==> i < 0
  {
    if i < 0 then "-" + NatToString(-i) else NatToString(i)
  }

  /** Reads back what `IntToString` writes. */
  function ParseInt(s: string): (r: Option<int>)
  {
    if |s| >= 2 && s[0] == '-' && forall k :: 1 <= k < |s| ==> IsDigit(s[k]) then
      Some(-DigitsValue(s[1..]))
    else if |s| >= 1 && forall k :: 0 <= k < |s| ==> IsDigit(s[k]) then
      Some(DigitsValue(s))
    else None
  }

  /** A minus sign followed by a natural number's digits reads as its negation. */
  lemma NegativeRoundTrip(n: nat)
    ensures ParseInt("-" + NatToString(n)) == Some(-(n as int))
  {
    var t := NatToString(n);
    var s := "-" + t;
    assert s[1..] == t;
    assert forall k :: 1 <= k < |s| ==> s[k] == t[k - 1];
    NatToStringRoundTrip(n);
  }

  /** A natural number's digits read as its value. */
  lemma NatRoundTrip(n: nat)
    ensures ParseInt(NatToString(n)) == Some(n)
  {
    assert IsDigit(NatToString(n)[0]);
    NatToStringRoundTrip(n);
  }

  lemma IntToStringRoundTrip(i: int)
    ensures ParseInt(IntToString(i)) == Some(i)
  {
    if i < 0 {
      NegativeRoundTrip(-i);
    } else {
      NatRoundTrip(i);
    }
  }

  // ---------------------------------------------------------------------------
  // One line of the list
  // ---------------------------------------------------------------------------

  /** One element of `data.results`: the category's name and the remaining
      amount in hours. */
  datatype BalanceItem = BalanceItem(categoryName: string, remainingAmount: int)

  const DaySuffix: string := "天 "
  const HourSuffix: string := "小時"

  /** `<name>: <days>天 <hours>小時` */
  function Label(item: BalanceItem): (line: string)
    ensures |line| >= |item.categoryName| + 4
    ensures line[..|item.categoryName| + 2] == item.categoryName + ": "
    ensures line[|line| - 2..] == HourSuffix
  {
    item.categoryName + ": " + IntToString(RemainingDays(item.remainingAmount)) + DaySuffix
      + IntToString(RemainingHours(item.remainingAmount)) + HourSuffix
  }

  /** The index of the first `c` in `s`, if any. */
  function IndexOf(s: string, c: char): (r: Option<nat>)
    ensures r.Some? ==> r.value < |s| && s[r.value] == c && forall k :: 0 <= k < r.value ==> s[k] != c
    ensures r.None? ==> forall k :: 0 <= k < |s| ==> s[k] != c
  {
    if |s| == 0 then None
    else if s[0] == c then Some(0)
    else match IndexOf(s[1..], c)
      case None => None
      case Some(j) => Some(j + 1)
  }

  /** Reads the days and hours back out of a line, given the length of the
      category name in front of them. */
  function ParseLabel(line: string, nameLength: nat): (r: Option<(int, int)>)
  {
    if |line| < nameLength + 4 then None
    else
      var middle := line[nameLength + 2..|line| - 2];
      match IndexOf(middle, '天')
      case None => None
      case Some(j) =>
        if j + 1 < |middle| && middle[j + 1] == ' ' then
          match (ParseInt(middle[..j]), ParseInt(middle[j + 2..]))
          case (Some(d), Some(h)) => Some((d, h))
          case _ => None
        else None
  }

  /** The first `天` of a middle part is the one after the days. */
  lemma IndexOfDaySuffix(ds: string, hs: string)
    requires forall k :: 0 <= k < |ds| ==> IsDigit(ds[k]) || ds[k] == '-'
    ensures IndexOf(ds + DaySuffix + hs, '天') == Some(|ds|)
  {
    var middle := ds + DaySuffix + hs;
    assert middle[|ds|] == '天';
    assert forall k :: 0 <= k < |ds| ==> middle[k] == ds[k];
  }

  /** The middle part of a line splits back into the days and the hours. */
  lemma MiddleSplits(ds: string, hs: string)
    requires forall k :: 0 <= k < |ds| ==> IsDigit(ds[k]) || ds[k] == '-'
    ensures var middle := ds + DaySuffix + hs;
            && IndexOf(middle, '天') == Some(|ds|)
            && |ds| + 1 < |middle| && middle[|ds| + 1] == ' '
            && middle[..|ds|] == ds && middle[|ds| + 2..] == hs
  {
    IndexOfDaySuffix(ds, hs);
    var middle := ds + DaySuffix + hs;
    assert middle[..|ds|] == ds;
    assert middle[|ds| + 2..] == hs;
  }

  /** A line shows exactly the category's name, the days and the hours the
      conversion computes: all three can be read back from it. */
  lemma LabelRoundTrip(item: BalanceItem)
    ensures ParseLabel(Label(item), |item.categoryName|)
         == Some((RemainingDays(item.remainingAmount), RemainingHours(item.remainingAmount)))
  {
    var ds := IntToString(RemainingDays(item.remainingAmount));
    var hs := IntToString(RemainingHours(item.remainingAmount));
    var line := Label(item);
    var n := |item.categoryName|;
    assert line == item.categoryName + ": " + (ds + DaySuffix + hs) + HourSuffix;
    assert line[n + 2..|line| - 2] == ds + DaySuffix + hs;
    MiddleSplits(ds, hs);
    IntToStringRoundTrip(RemainingDays(item.remainingAmount));
    IntToStringRoundTrip(RemainingHours(item.remainingAmount));
  }

  /** For a non-negative amount the line determines the amount. */
  lemma LabelShowsAmount(item: BalanceItem)
    requires item.remainingAmount >= 0
    ensures match ParseLabel(Label(item), |item.categoryName|)
            case Some((d, h)) => d * HoursPerDay + h == item.remainingAmount && 0 <= h < HoursPerDay
            case None => false
  {
    LabelRoundTrip(item);
    SplitAddsUp(item.remainingAmount);
  }

  // ---------------------------------------------------------------------------
  // The list
  // ---------------------------------------------------------------------------

  /** `#leave-balance-list`: the lines, top to bottom. */
  class BalanceList {
    var lines: seq<string>

    constructor ()
      ensures lines == []
    {
      lines := [];
    }

    /** The `success` callback of `refresh_user_leave_balance`: the list is emptied
        and gets one line per result, in response order. */
    method Refresh(results: seq<BalanceItem>)
      modifies this
      ensures |lines| == |results|
      ensures forall i :: 0 <= i < |results| ==> lines[i] == Label(results[i])
    {
      lines := [];
      var i := 0;
      while i < |results|
        invariant 0 <= i <= |results|
        invariant |lines| == i
        invariant forall k :: 0 <= k < i ==> lines[k] == Label(results[k])
      {
        var item := results[i];
        var remainingDays := RemainingDays(item.remainingAmount);
        var remainingHours := RemainingHours(item.remainingAmount);
        var li := item.categoryName + ": " + IntToString(remainingDays) + DaySuffix
                  + IntToString(remainingHours) + HourSuffix;
        lines := lines + [li];
        i := i + 1;
      }
    }
  }
}
