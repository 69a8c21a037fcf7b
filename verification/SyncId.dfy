/** Sync ids: numeric strings compared by value, and the sort key that stands for them in an index. */
module SyncIds {

  predicate IsDigit(c: char) {
    '0' <= c <= '9'
  }

  predicate Numeric(s: string) {
    s != "" && forall i :: 0 <= i < |s| ==> IsDigit(s[i])
  }

  function Digit(c: char): nat
    requires IsDigit(c)
  {
    c as int - '0' as int
  }

  predicate Digits(s: string) {
    forall i :: 0 <= i < |s| ==> IsDigit(s[i])
  }

  /** The value of a numeric string. */
  function Num(s: string): nat
    requires Digits(s)
  {
    if s == "" then 0 else Num(s[..|s| - 1]) * 10 + Digit(s[|s| - 1])
  }

  function Pow10(n: nat): (p: nat)
    ensures p > 0
  {
    if n == 0 then 1 else 10 * Pow10(n - 1)
  }

  function StripZeros(s: string): string {
    if s != "" && s[0] == '0' then StripZeros(s[1..]) else s
  }

  /** The id without leading zeros. */
  function Stripped(s: string): string {
    var t := StripZeros(s);
    if t == "" then "0" else t
  }

  /** String comparison, code unit by code unit. */
  function CompareText(a: string, b: string): int {
    if a == "" || b == "" then (if a == b then 0 else if a == "" then -1 else 1)
    else if a[0] != b[0] then (if a[0] < b[0] then -1 else 1)
    else CompareText(a[1..], b[1..])
  }

  /** A text sorts first if it starts the other, or is the smaller one where they first differ. */
  ghost predicate SortsFirst(a: string, b: string) {
    || (a <= b && |a| < |b|)
    || exists i :: 0 <= i < |a| && i < |b| && a[..i] == b[..i] && a[i] < b[i]
  }

  lemma {:induction false} CompareTextExactly(a: string, b: string)
    ensures CompareText(a, b) < 0 <==> SortsFirst(a, b)
    ensures CompareText(a, b) == 0 <==> a == b
    ensures CompareText(a, b) == -CompareText(b, a)
  {
    if a != "" && b != "" {
      if a[0] == b[0] {
        CompareTextExactly(a[1..], b[1..]);
        SortsFirstTail(a, b);
        assert a == [a[0]] + a[1..] && b == [b[0]] + b[1..];
      } else if a[0] < b[0] {
        assert a[..0] == b[..0];
      }
    }
  }

  lemma SortsFirstTail(a: string, b: string)
    requires a != "" && b != "" && a[0] == b[0]
    ensures SortsFirst(a, b) <==> SortsFirst(a[1..], b[1..])
  {
    if i :| 0 <= i < |a| && i < |b| && a[..i] == b[..i] && a[i] < b[i] {
      assert a[1..][..i - 1] == a[..i][1..] && b[1..][..i - 1] == b[..i][1..];
      assert a[1..][i - 1] == a[i] && b[1..][i - 1] == b[i];
    }
    if i :| 0 <= i < |a[1..]| && i < |b[1..]| && a[1..][..i] == b[1..][..i] && a[1..][i] < b[1..][i] {
      assert a[..i + 1] == [a[0]] + a[1..][..i] && b[..i + 1] == [b[0]] + b[1..][..i];
      assert a[..i + 1] == b[..i + 1];
    }
    assert a == [a[0]] + a[1..] && b == [b[0]] + b[1..];
  }

  function CompareSyncId(a: string, b: string): int {
    var s, t := Stripped(a), Stripped(b);
    if |s| != |t| then |s| - |t| else CompareText(s, t)
  }

  function Decimal(n: nat): string {
    var last := ('0' as int + n % 10) as char;
    if n < 10 then [last] else Decimal(n / 10) + [last]
  }

  function PadStart(s: string, width: nat): string
    decreases width - |s|
  {
    if |s| >= width then s else PadStart("0" + s, width)
  }

  /** The length that starts a key, padded to four digits. */
  function LengthPrefix(n: nat): string {
    PadStart(Decimal(n), 4)
  }

  function ToSyncIdKey(id: string): string {
    var s := Stripped(id);
    LengthPrefix(|s|) + s
  }

  // ---- comparison is numeric

  lemma {:induction false} NumBelow(s: string)
    requires Digits(s)
    ensures Num(s) < Pow10(|s|)
  {
    if s != "" {
      NumBelow(s[..|s| - 1]);
    }
  }

  lemma Regroup(first: nat, p: nat, rest: nat, last: nat)
    ensures (first * p + rest) * 10 + last == first * (10 * p) + (rest * 10 + last)
  {
  }

  /** The value by its first digit. */
  lemma {:induction false} NumFirst(s: string)
    requires Digits(s) && s != ""
    ensures Digits(s[1..]) && Num(s) == Digit(s[0]) * Pow10(|s| - 1) + Num(s[1..])
  {
    if |s| == 1 {
      assert s[..0] == "" && s[1..] == "";
    } else {
      var front := s[..|s| - 1];
      NumFirst(front);
      assert front[1..] == s[1..][..|s| - 2];
      assert Pow10(|s| - 1) == 10 * Pow10(|s| - 2);
      Regroup(Digit(s[0]), Pow10(|s| - 2), Num(front[1..]), Digit(s[|s| - 1]));
    }
  }

  lemma {:induction false} StripKeepsValue(s: string)
    requires Digits(s)
    ensures Digits(StripZeros(s)) && Num(StripZeros(s)) == Num(s)
    ensures StripZeros(s) != "" ==> StripZeros(s)[0] != '0'
  {
    if s != "" && s[0] == '0' {
      NumFirst(s);
      StripKeepsValue(s[1..]);
    }
  }

  lemma StrippedValue(s: string)
    requires Numeric(s)
    ensures Numeric(Stripped(s)) && Num(Stripped(s)) == Num(s)
    ensures |Stripped(s)| > 1 ==> Stripped(s)[0] != '0'
  {
    StripKeepsValue(s);
    assert "0"[..0] == "";
  }

  /** A longer number without leading zeros is a larger one. */
  lemma LongerIsLarger(a: string, b: string)
    requires Numeric(a) && Numeric(b) && |a| < |b| && b[0] != '0'
    ensures Num(a) < Num(b)
  {
    NumBelow(a);
    NumFirst(b);
    PowGrows(|a|, |b| - 1);
    DigitStep(0, Digit(b[0]), Pow10(|b| - 1));
  }

  lemma {:induction false} PowGrows(m: nat, n: nat)
    requires m <= n
    ensures Pow10(m) <= Pow10(n)
  {
    if m < n {
      PowGrows(m, n - 1);
    }
  }

  /** Between strings of one length, text order is numeric order. */
  lemma {:induction false} SameLengthOrder(a: string, b: string)
    requires Digits(a) && Digits(b) && |a| == |b|
    ensures CompareText(a, b) < 0 <==> Num(a) < Num(b)
    ensures CompareText(a, b) == 0 <==> Num(a) == Num(b)
    ensures Num(a) == Num(b) <==> a == b
  {
    if a != "" {
      NumFirst(a);
      NumFirst(b);
      NumBelow(a[1..]);
      NumBelow(b[1..]);
      var p := Pow10(|a| - 1);
      if a[0] == b[0] {
        SameLengthOrder(a[1..], b[1..]);
        assert a == [a[0]] + a[1..] && b == [b[0]] + b[1..];
      } else if a[0] < b[0] {
        DigitStep(Digit(a[0]), Digit(b[0]), p);
      } else {
        DigitStep(Digit(b[0]), Digit(a[0]), p);
      }
    }
  }

  lemma DigitStep(x: nat, y: nat, p: nat)
    requires x < y
    ensures x * p + p <= y * p
  {
    TimesGrows(x + 1, y, p);
    assert (x + 1) * p == x * p + p;
  }

  lemma {:induction false} TimesGrows(x: nat, y: nat, p: nat)
    requires x <= y
    ensures x * p <= y * p
    decreases y
  {
    if x < y {
      TimesGrows(x, y - 1, p);
      assert y * p == (y - 1) * p + p;
    }
  }

  /** Comparing two ids is comparing their values. */
  lemma CompareIsNumeric(a: string, b: string)
    requires Numeric(a) && Numeric(b)
    ensures CompareSyncId(a, b) < 0 <==> Num(a) < Num(b)
    ensures CompareSyncId(a, b) == 0 <==> Num(a) == Num(b)
  {
    StrippedValue(a);
    StrippedValue(b);
    var s, t := Stripped(a), Stripped(b);
    if |s| < |t| {
      LongerIsLarger(s, t);
    } else if |t| < |s| {
      LongerIsLarger(t, s);
    } else {
      SameLengthOrder(s, t);
    }
  }

  // ---- the key

  lemma {:induction false} DecimalValue(n: nat)
    ensures Numeric(Decimal(n)) && Num(Decimal(n)) == n
  {
    var last := ('0' as int + n % 10) as char;
    if n < 10 {
      assert [last][..0] == "";
    } else {
      DecimalValue(n / 10);
      assert (Decimal(n / 10) + [last])[..|Decimal(n / 10)|] == Decimal(n / 10);
    }
  }

  lemma {:induction false} DecimalLength(n: nat, k: nat)
    requires n < Pow10(k) && k > 0
    ensures |Decimal(n)| <= k
  {
    assert Pow10(1) == 10;
    if n >= 10 {
      assert n / 10 < Pow10(k - 1);
      DecimalLength(n / 10, k - 1);
    }
  }

  lemma {:induction false} PadKeepsValue(s: string, width: nat)
    requires Digits(s)
    ensures Digits(PadStart(s, width)) && Num(PadStart(s, width)) == Num(s)
    ensures |PadStart(s, width)| == if |s| >= width then |s| else width
    decreases width - |s|
  {
    if |s| < width {
      NumFirst("0" + s);
      assert ("0" + s)[1..] == s;
      PadKeepsValue("0" + s, width);
    }
  }

  lemma {:induction false} DecimalStarts(n: nat)
    requires n > 0
    ensures Decimal(n)[0] != '0'
  {
    if n >= 10 {
      DecimalStarts(n / 10);
    }
  }

  /** The prefix is the length; it has four digits as long as the length has. */
  lemma PrefixValue(n: nat)
    ensures var p := LengthPrefix(n); Numeric(p) && Num(p) == n && |p| >= 4
    ensures n <= 9999 ==> |LengthPrefix(n)| == 4
    ensures |LengthPrefix(n)| > 4 ==> LengthPrefix(n)[0] != '0'
  {
    DecimalValue(n);
    PadKeepsValue(Decimal(n), 4);
    if n <= 9999 {
      assert Pow10(4) == 10000;
      DecimalLength(n, 4);
    } else {
      DecimalStarts(n);
    }
  }

  lemma PrefixesGrow(m: nat, n: nat)
    requires m < n
    ensures |LengthPrefix(m)| <= |LengthPrefix(n)|
  {
    PrefixValue(m);
    PrefixValue(n);
    if |LengthPrefix(m)| > |LengthPrefix(n)| {
      LongerIsLarger(LengthPrefix(n), LengthPrefix(m));
    }
  }

  lemma {:induction false} CompareConcat(a: string, b: string, c: string, d: string)
    requires |a| == |b|
    ensures CompareText(a + c, b + d) == if a == b then CompareText(c, d) else CompareText(a, b)
  {
    if a == "" {
      assert a + c == c && b + d == d;
    } else {
      assert (a + c)[1..] == a[1..] + c && (b + d)[1..] == b[1..] + d;
      assert a == [a[0]] + a[1..] && b == [b[0]] + b[1..];
      CompareConcat(a[1..], b[1..], c, d);
    }
  }

  /** Ids with the same number of significant digits sort by value, however many that is. */
  lemma SameLengthKeys(a: string, b: string)
    requires Numeric(a) && Numeric(b) && |Stripped(a)| == |Stripped(b)|
    ensures CompareText(ToSyncIdKey(a), ToSyncIdKey(b)) < 0 <==> Num(a) < Num(b)
    ensures CompareText(ToSyncIdKey(a), ToSyncIdKey(b)) == 0 <==> Num(a) == Num(b)
  {
    var s, t := Stripped(a), Stripped(b);
    StrippedValue(a);
    StrippedValue(b);
    CompareConcat(LengthPrefix(|s|), LengthPrefix(|t|), s, t);
    SameLengthOrder(s, t);
  }

  /**
   * An id with fewer significant digits is the smaller one. It sorts first exactly when the two
   * length prefixes are equally long, or its length is below the leading digits of the other
   * length, or equal to them and its digits sort before what follows them.
   */
  lemma ShorterKeyFirstExactly(a: string, b: string)
    requires Numeric(a) && Numeric(b) && |Stripped(a)| < |Stripped(b)|
    ensures var m, p, q := |Stripped(a)|, LengthPrefix(|Stripped(a)|), LengthPrefix(|Stripped(b)|);
            && Num(a) < Num(b) && |p| <= |q| && Digits(q[..|p|])
            && (CompareText(ToSyncIdKey(a), ToSyncIdKey(b)) < 0
                <==> || |p| == |q|
                     || m < Num(q[..|p|])
                     || (m == Num(q[..|p|]) && CompareText(Stripped(a), q[|p|..] + Stripped(b)) < 0))
  {
    hide Num, Pow10, Decimal, PadStart, StripZeros, CompareText, Stripped, LengthPrefix;
    var s, t := Stripped(a), Stripped(b);
    var p, q := LengthPrefix(|s|), LengthPrefix(|t|);
    StrippedValue(a);
    StrippedValue(b);
    LongerIsLarger(s, t);
    PrefixValue(|s|);
    PrefixValue(|t|);
    PrefixesGrow(|s|, |t|);
    PrefixCompare(p, q, s, t);
    if |p| == |q| {
      assert q[..|p|] == q;
    }
  }

  /** Two concatenations, the first part of one as long as the first part of the other or shorter. */
  lemma PrefixCompare(p: string, q: string, s: string, t: string)
    requires Digits(p) && Digits(q) && |p| <= |q|
    ensures Digits(q[..|p|])
    ensures CompareText(p + s, q + t) < 0
            <==> Num(p) < Num(q[..|p|]) || (Num(p) == Num(q[..|p|]) && CompareText(s, q[|p|..] + t) < 0)
  {
    hide Num, Pow10, CompareText;
    var head, tail := q[..|p|], q[|p|..];
    assert q + t == head + (tail + t) by {
      assert q == head + tail;
    }
    SameLengthOrder(p, head);
    CompareConcat(p, head, s, tail + t);
  }

  /**
   * Key order is numeric order, and key equality numeric equality, for ids of at most 9999
   * significant digits.
   */
  lemma KeyOrder(a: string, b: string)
    requires Numeric(a) && Numeric(b) && |Stripped(a)| <= 9999 && |Stripped(b)| <= 9999
    ensures CompareText(ToSyncIdKey(a), ToSyncIdKey(b)) < 0 <==> Num(a) < Num(b)
    ensures CompareText(ToSyncIdKey(a), ToSyncIdKey(b)) == 0 <==> Num(a) == Num(b)
  {
    var s, t := Stripped(a), Stripped(b);
    PrefixValue(|s|);
    PrefixValue(|t|);
    CompareSwaps(ToSyncIdKey(a), ToSyncIdKey(b));
    if |s| == |t| {
      SameLengthKeys(a, b);
    } else if |s| < |t| {
      ShorterKeyFirstExactly(a, b);
    } else {
      ShorterKeyFirstExactly(b, a);
    }
  }

  lemma {:induction false} CompareSwaps(a: string, b: string)
    ensures CompareText(a, b) == -CompareText(b, a)
  {
    if a != "" && b != "" && a[0] == b[0] {
      CompareSwaps(a[1..], b[1..]);
    }
  }

  /** From the 10000th digit on the order breaks: every id of 1000 to 9999 digits sorts above every one of 10000. */
  lemma KeyOrderBreaks(a: string, b: string)
    requires Numeric(a) && Numeric(b) && 1000 <= |Stripped(a)| <= 9999 && |Stripped(b)| == 10000
    ensures Num(a) < Num(b) && CompareText(ToSyncIdKey(a), ToSyncIdKey(b)) >= 0
  {
    var s, t := Stripped(a), Stripped(b);
    StrippedValue(a);
    assert Decimal(10000) == Decimal(1000) + "0" && Decimal(1000) == Decimal(100) + "0"
      && Decimal(100) == Decimal(10) + "0"
           && Decimal(10) == Decimal(1) + "0" && Decimal(1) == "1";
    var q := LengthPrefix(10000);
    assert q == "10000" && q[..4] == "1000" && q[4..] == "0" && Decimal(1000) == "1000";
    DecimalValue(1000);
    PrefixValue(|s|);
    ShorterKeyFirstExactly(a, b);
    assert CompareText(s, q[4..] + t) > 0;
  }
}
