/** `strtoul(s, NULL, 10)` as the option parsers call it, and the decimal
    rendering of a number, which reads back through it. */
module Decimal {
  import opened Widths

  predicate IsDigit(c: char) {
    '0' <= c <= '9'
  }

  predicate AllDigits(s: string) {
    forall i :: 0 <= i < |s| ==> IsDigit(s[i])
  }

  function DigitValue(c: char): (d: nat)
    requires IsDigit(c)
    ensures d < 10
  {
    (c as int) - ('0' as int)
  }

  function DigitChar(d: nat): (c: char)
    requires d < 10
    ensures IsDigit(c) && DigitValue(c) == d
  {
    (('0' as int) + d) as char
  }

  /** The number a digit string denotes, most significant digit first. */
  function Value(ds: string): nat
    requires AllDigits(ds)
    decreases |ds|
  {
    if |ds| == 0 then 0 else Value(ds[..|ds| - 1]) * 10 + DigitValue(ds[|ds| - 1])
  }

  /** Length of the longest all-digit prefix of `s`. */
  function DigitRun(s: string): (n: nat)
    ensures n <= |s|
    ensures AllDigits(s[..n])
    ensures n < |s| ==> !IsDigit(s[n])
    decreases |s|
  {
    if |s| == 0 || !IsDigit(s[0]) then 0
    else
      var n := 1 + DigitRun(s[1..]);
      assert s[..n] == [s[0]] + s[1..][..n - 1];
      n
  }

  /** The digit loop of `strtoul`: each leading digit is appended to the
      value read so far, and the first non-digit ends the loop. */
  function Accumulate(s: string, acc: nat): nat
    decreases |s|
  {
    if |s| == 0 || !IsDigit(s[0]) then acc
    else Accumulate(s[1..], acc * 10 + DigitValue(s[0]))
  }

  /** The value of the leading digits of `s`, as a mathematical integer. */
  function LeadingValue(s: string): nat {
    Accumulate(s, 0)
  }

  /** C's `isspace` in the "C" locale: blank, tab, newline, vertical tab,
      form feed and carriage return. */
  predicate IsSpace(c: char) {
    c == ' ' || 9 <= c as int <= 13
  }

  /** 2^64: an `unsigned long` on an LP64 target holds values below it. */
  const Two64: nat := 0x1_0000_0000_0000_0000

  /** Unsigned negation of a value that fits an `unsigned long`. */
  function Negate(v: nat): (r: nat)
    requires v <= UlongMax
    ensures r <= UlongMax
  {
    if v == 0 then 0 else Two64 - v
  }

  /** `Negate` is negation modulo 2^64: adding the value back wraps to 0. */
  lemma NegateWraps(v: nat)
    requires v <= UlongMax
    ensures Negate(v) == (Two64 - v) % Two64
    ensures (Negate(v) + v) % Two64 == 0
  {
  }

  /** `strtoul(s, NULL, 10)`: leading white space is skipped, then one
      optional sign, then the digits are read. A value that does not fit
      gives `ULONG_MAX`, whatever the sign; otherwise a '-' negates it
      modulo 2^64. Without digits the result is 0. */
  function Strtoul(s: string): (r: nat)
    ensures r <= UlongMax
    decreases |s|
  {
    if |s| > 0 && IsSpace(s[0]) then Strtoul(s[1..])
    else
      var signed := |s| > 0 && (s[0] == '+' || s[0] == '-');
      var v := LeadingValue(if signed then s[1..] else s);
      if v > UlongMax then UlongMax
      else if signed && s[0] == '-' then Negate(v)
      else v
  }

  /** Decimal rendering of `n`, without leading zeros. */
  function ToDecimal(n: nat): (r: string)
    ensures |r| >= 1 && AllDigits(r)
    ensures Value(r) == n
    ensures r[0] == '0' ==> n == 0
    decreases n
  {
    if n < 10 then [DigitChar(n)]
    else
      var r := ToDecimal(n / 10) + [DigitChar(n % 10)];
      assert r[..|r| - 1] == ToDecimal(n / 10);
      r
  }

  /** A digit string denotes zero exactly when every digit is '0'. */
  lemma {:induction false} ValueZero(ds: string)
    requires AllDigits(ds)
    ensures Value(ds) == 0 <==> forall i :: 0 <= i < |ds| ==> ds[i] == '0'
    decreases |ds|
  {
    if |ds| > 0 {
      var init := ds[..|ds| - 1];
      ValueZero(init);
      assert forall i :: 0 <= i < |init| ==> init[i] == ds[i];
    }
  }

  /** Reading a run of digits and then the text after it is reading the
      text after it, starting from the value of the run. */
  lemma {:induction false} AccumulateAppend(ds: string, rest: string, acc: nat)
    requires AllDigits(ds)
    ensures Accumulate(ds + rest, acc) == Accumulate(rest, Accumulate(ds, acc))
    decreases |ds|
  {
    if |ds| > 0 {
      assert (ds + rest)[0] == ds[0];
      assert (ds + rest)[1..] == ds[1..] + rest;
      assert AllDigits(ds[1..]) by {
        assert forall i :: 0 <= i < |ds| - 1 ==> ds[1..][i] == ds[i + 1];
      }
      AccumulateAppend(ds[1..], rest, acc * 10 + DigitValue(ds[0]));
    } else {
      assert ds + rest == rest;
    }
  }

  /** The digit loop computes the value of the digits it reads. */
  lemma {:induction false} AccumulateIsValue(ds: string)
    requires AllDigits(ds)
    ensures Accumulate(ds, 0) == Value(ds)
    decreases |ds|
  {
    if |ds| > 0 {
      var init := ds[..|ds| - 1];
      var last := ds[|ds| - 1];
      assert ds == init + [last];
      AccumulateIsValue(init);
      AccumulateAppend(init, [last], 0);
      assert [last][1..] == [];
    }
  }

  /** The digit loop reads exactly the leading digit run: its result is
      the value of that run. */
  lemma LeadingValueIsValue(s: string)
    ensures LeadingValue(s) == Value(s[..DigitRun(s)])
  {
    var n := DigitRun(s);
    assert s == s[..n] + s[n..];
    AccumulateAppend(s[..n], s[n..], 0);
    AccumulateIsValue(s[..n]);
  }

  /** The leading value is zero exactly when the leading digit run is empty
      or made of zeros only; so "", "abc", "0" and "00x" all read as zero. */
  lemma LeadingValueZero(s: string)
    ensures LeadingValue(s) == 0 <==> forall i :: 0 <= i < DigitRun(s) ==> s[i] == '0'
  {
    var n := DigitRun(s);
    LeadingValueIsValue(s);
    ValueZero(s[..n]);
    assert forall i :: 0 <= i < n ==> s[..n][i] == s[i];
  }

  /** Reading back a rendered number gives the number, whatever non-digit
      text follows it. */
  lemma LeadingValueOfDecimal(n: nat, rest: string)
    requires rest == "" || !IsDigit(rest[0])
    ensures LeadingValue(ToDecimal(n) + rest) == n
  {
    var ds := ToDecimal(n);
    AccumulateAppend(ds, rest, 0);
    AccumulateIsValue(ds);
  }

  /** Leading white space does not change what `strtoul` reads. */
  lemma {:induction false} StrtoulSkipsSpace(ws: string, t: string)
    requires forall i :: 0 <= i < |ws| ==> IsSpace(ws[i])
    ensures Strtoul(ws + t) == Strtoul(t)
    decreases |ws|
  {
    if |ws| > 0 {
      assert (ws + t)[0] == ws[0];
      assert (ws + t)[1..] == ws[1..] + t;
      StrtoulSkipsSpace(ws[1..], t);
    } else {
      assert ws + t == t;
    }
  }

  /** `strtoul` reads back every rendered `unsigned long`. */
  lemma {:induction false} StrtoulOfDecimal(n: nat)
    requires n <= UlongMax
    ensures Strtoul(ToDecimal(n)) == n
  {
    var ds := ToDecimal(n);
    assert IsDigit(ds[0]);
    LeadingValueOfDecimal(n, "");
    assert ds + "" == ds;
  }

  /** A rendered number after white space and one sign. */
  lemma {:induction false} StrtoulWithSign(ws: string, sign: char, n: nat)
    requires forall i :: 0 <= i < |ws| ==> IsSpace(ws[i])
    requires n <= UlongMax && (sign == '+' || sign == '-')
    ensures sign == '+' ==> Strtoul(ws + [sign] + ToDecimal(n)) == n
    ensures sign == '-' ==> Strtoul(ws + [sign] + ToDecimal(n)) == Negate(n)
  {
    var ds := ToDecimal(n);
    LeadingValueOfDecimal(n, "");
    assert ds + "" == ds;
    var t := [sign] + ds;
    assert t[1..] == ds;
    StrtoulSkipsSpace(ws, t);
    assert ws + [sign] + ds == ws + t;
  }

  /** After any white space, a rendered `unsigned long` reads back as
      itself, with a '+' sign as itself, and with a '-' sign as its
      negation modulo 2^64; so "-1" reads as `ULONG_MAX`. */
  lemma {:induction false} StrtoulSigned(ws: string, n: nat)
    requires forall i :: 0 <= i < |ws| ==> IsSpace(ws[i])
    requires n <= UlongMax
    ensures Strtoul(ws + ToDecimal(n)) == n
    ensures Strtoul(ws + "+" + ToDecimal(n)) == n
    ensures Strtoul(ws + "-" + ToDecimal(n)) == Negate(n)
  {
    StrtoulSkipsSpace(ws, ToDecimal(n));
    StrtoulOfDecimal(n);
    StrtoulWithSign(ws, '+', n);
    StrtoulWithSign(ws, '-', n);
  }

  /** A number too large for an `unsigned long` reads as `ULONG_MAX`,
      with either sign. */
  lemma {:induction false} StrtoulSaturates(ws: string, sign: char, n: nat)
    requires forall i :: 0 <= i < |ws| ==> IsSpace(ws[i])
    requires n > UlongMax && (sign == '+' || sign == '-')
    ensures Strtoul(ws + ToDecimal(n)) == UlongMax
    ensures Strtoul(ws + [sign] + ToDecimal(n)) == UlongMax
  {
    var ds := ToDecimal(n);
    LeadingValueOfDecimal(n, "");
    assert ds + "" == ds;
    assert IsDigit(ds[0]);
    StrtoulSkipsSpace(ws, ds);
    var t := [sign] + ds;
    assert t[1..] == ds;
    StrtoulSkipsSpace(ws, t);
    assert ws + [sign] + ds == ws + t;
  }
}
