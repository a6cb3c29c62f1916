/** Decimal text of counts, as the dashboard reads and writes it:
 *  `int(s)` on the count strings the provider sends, `str(n)` when a channel
 *  field is written as "key: value", and `f"{n:,}"` (comma-grouped thousands)
 *  in the statistics lines of the PDF report. */
module Numbers {
  import opened Results

  predicate IsDigit(c: char) { '0' <= c <= '9' }

  predicate AllDigits(s: string) { forall i :: 0 <= i < |s| ==> IsDigit(s[i]) }

  function DigitValue(c: char): (d: nat)
    requires IsDigit(c)
    ensures d < 10
  {
    c as int - '0' as int
  }

  function DigitChar(d: nat): (c: char)
    requires d < 10
    ensures IsDigit(c) && DigitValue(c) == d
  {
    (d + '0' as int) as char
  }

  /** The number a run of decimal digits denotes, most significant first. */
  function DigitsValue(s: string): nat
    requires AllDigits(s)
  {
    if s == [] then 0 else DigitsValue(s[..|s| - 1]) * 10 + DigitValue(s[|s| - 1])
  }

  /** `int(s)` on a provider string: an optional sign, then at least one
   *  ASCII digit; anything else raises ValueError (None here). */
  function ParseInt(s: string): Option<int>
  {
    if |s| > 0 && (s[0] == '-' || s[0] == '+') then
      if |s| > 1 && AllDigits(s[1..]) then
        var v: int := DigitsValue(s[1..]);
        Some(if s[0] == '-' then -v else v)
      else None
    else if |s| > 0 && AllDigits(s) then Some(DigitsValue(s))
    else None
  }

  /** `str(n)` for a non-negative n: digits only, and a leading zero only for
   *  zero itself. */
  function Decimal(n: nat): string
  {
    if n < 10 then [DigitChar(n)] else Decimal(n / 10) + [DigitChar(n % 10)]
  }

  /** `str(n)` writes digits only, at least one, and a leading zero only for
   *  zero itself. */
  lemma {:induction false} DecimalDigits(n: nat)
    ensures |Decimal(n)| >= 1 && AllDigits(Decimal(n))
    ensures Decimal(n)[0] == '0' <==> n == 0
  {
    if n >= 10 {
      DecimalDigits(n / 10);
    }
  }

  /** `str(n)` for any integer. */
  function IntText(n: int): string
  {
    if n < 0 then "-" + Decimal(-n) else Decimal(n)
  }

  /** The separator insertion of Python's `,` format option: a comma before
   *  every third digit counted from the right. */
  function InsertCommas(d: string): string
  {
    if |d| <= 3 then d else InsertCommas(d[..|d| - 3]) + "," + d[|d| - 3..]
  }

  /** `f"{n:,}"` for a non-negative n. */
  function Grouped(n: nat): string
  {
    InsertCommas(Decimal(n))
  }

  /** `f"{n:,}"` for any integer: the sign stays in front of the groups. */
  function ThousandsText(n: int): string
  {
    (if n < 0 then "-" else "") + Grouped(if n < 0 then -n else n)
  }

  /** The text with every comma taken out. */
  function RemoveCommas(s: string): string
  {
    if s == [] then [] else (if s[0] == ',' then [] else [s[0]]) + RemoveCommas(s[1..])
  }

  lemma {:induction false} RemoveCommasAppend(a: string, b: string)
    ensures RemoveCommas(a + b) == RemoveCommas(a) + RemoveCommas(b)
  {
    if a == [] {
      assert a + b == b;
    } else {
      assert (a + b)[1..] == a[1..] + b;
      RemoveCommasAppend(a[1..], b);
    }
  }

  predicate CommaFree(s: string) { forall i :: 0 <= i < |s| ==> s[i] != ',' }

  lemma {:induction false} RemoveCommasNone(s: string)
    requires CommaFree(s)
    ensures RemoveCommas(s) == s
  {
    if s != [] {
      RemoveCommasNone(s[1..]);
    }
  }

  /** Reading back what `str` wrote gives the number again. */
  lemma {:induction false} DecimalValue(n: nat)
    ensures AllDigits(Decimal(n)) && DigitsValue(Decimal(n)) == n
  {
    DecimalDigits(n);
    if n >= 10 {
      var s := Decimal(n);
      assert s[..|s| - 1] == Decimal(n / 10);
      DecimalValue(n / 10);
    }
  }

  /** `int(str(n)) == n` for every integer n. */
  lemma ParseIntRoundTrip(n: int)
    ensures ParseInt(IntText(n)) == Some(n)
  {
    var s := IntText(n);
    DecimalDigits(if n < 0 then -n else n);
    if n < 0 {
      assert s[1..] == Decimal(-n);
      DecimalValue(-n);
    } else {
      DecimalValue(n);
    }
  }

  /** Grouping adds one comma per full group of three after the first. */
  lemma {:induction false} InsertCommasLength(d: string)
    requires |d| > 0
    ensures |InsertCommas(d)| == |d| + (|d| - 1) / 3
  {
    if |d| > 3 {
      InsertCommasLength(d[..|d| - 3]);
    }
  }

  /** Taking the commas out of a grouped digit string gives the digits back. */
  lemma {:induction false} InsertCommasRemove(d: string)
    requires CommaFree(d)
    ensures RemoveCommas(InsertCommas(d)) == d
  {
    if |d| <= 3 {
      RemoveCommasNone(d);
    } else {
      var head, tail := d[..|d| - 3], d[|d| - 3..];
      var p := InsertCommas(head);
      assert CommaFree(head) && CommaFree(tail) by {
        assert forall i :: 0 <= i < |head| ==> head[i] == d[i];
        assert forall i :: 0 <= i < |tail| ==> tail[i] == d[|d| - 3 + i];
      }
      InsertCommasRemove(head);
      calc {
        RemoveCommas(InsertCommas(d));
        { assert InsertCommas(d) == p + ([','] + tail); }
        RemoveCommas(p + ([','] + tail));
        { RemoveCommasAppend(p, [','] + tail); }
        RemoveCommas(p) + RemoveCommas([','] + tail);
        { assert ([','] + tail)[1..] == tail; }
        head + RemoveCommas(tail);
        { RemoveCommasNone(tail); }
        head + tail;
        d;
      }
    }
  }

  /** The commas of s stand exactly at the positions 4, 8, 12, ... counted
   *  from its right end: every group after the first has exactly three
   *  characters, and the first has one to three. */
  predicate GroupsOfThree(s: string)
  {
    forall i :: 0 <= i < |s| ==> (s[i] == ',' <==> (|s| - i) % 4 == 0)
  }

  /** Grouping a digit string puts its commas where GroupsOfThree says. */
  lemma {:induction false} InsertCommasPositions(d: string)
    requires |d| > 0 && CommaFree(d)
    ensures GroupsOfThree(InsertCommas(d))
  {
    var s := InsertCommas(d);
    if |d| > 3 {
      var head, tail := d[..|d| - 3], d[|d| - 3..];
      InsertCommasPositions(head);
      var p := InsertCommas(head);
      assert s == p + "," + tail;
      assert |s| == |p| + 4;
      forall i | 0 <= i < |s|
        ensures s[i] == ',' <==> (|s| - i) % 4 == 0
      {
        if i < |p| {
          assert s[i] == p[i];
          assert (|s| - i) % 4 == (|p| - i) % 4 by {
            assert |s| - i == (|p| - i) + 4;
          }
        } else if i == |p| {
          assert s[i] == ',';
        } else {
          assert s[i] == d[|d| - 3 + (i - |p| - 1)];
          assert 1 <= |s| - i <= 3;
        }
      }
    }
  }

  /** `f"{n:,}"`: the digit groups are as GroupsOfThree says, and taking the
   *  commas out of the text gives `str(n)`, which `int()` reads back as n. */
  lemma ThousandsTextSpec(n: int)
    ensures RemoveCommas(ThousandsText(n)) == IntText(n)
    ensures ParseInt(RemoveCommas(ThousandsText(n))) == Some(n)
    ensures GroupsOfThree(Grouped(if n < 0 then -n else n))
  {
    var m := if n < 0 then -n else n;
    DecimalDigits(m);
    InsertCommasRemove(Decimal(m));
    InsertCommasPositions(Decimal(m));
    if n < 0 {
      RemoveCommasAppend("-", Grouped(m));
      assert RemoveCommas("-") == "-" by {
        assert "-"[1..] == [];
      }
    } else {
      assert ThousandsText(n) == Grouped(m);
    }
    ParseIntRoundTrip(n);
  }
}
