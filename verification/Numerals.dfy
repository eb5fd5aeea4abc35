/** Printing and parsing numbers as text. */
module Numerals {
  import opened Base

  predicate Base16Or10(base: nat) { base == 10 || base == 16 }

  function DigitChar(d: nat): char
    requires d < 16
  {
    "0123456789ABCDEF"[d]
  }

  /** The value of a digit of either case. */
  function DigitValue(c: char): Option<nat> {
    if '0' <= c <= '9' then Some(c as int - '0' as int)
    else if 'A' <= c <= 'F' then Some(c as int - 'A' as int + 10)
    else if 'a' <= c <= 'f' then Some(c as int - 'a' as int + 10)
    else None
  }

  predicate IsDigit(c: char, base: nat) {
    DigitValue(c).Some? && DigitValue(c).value < base
  }

  function Print(n: nat, base: nat): string
    requires Base16Or10(base)
  {
    if n < base then [DigitChar(n)] else Print(n / base, base) + [DigitChar(n % base)]
  }

  /** The value of a non-empty string of digits. */
  function Parse(s: string, base: nat): Option<nat>
    requires Base16Or10(base)
  {
    if s == [] || !IsDigit(s[|s| - 1], base) then None
    else
      var d := DigitValue(s[|s| - 1]).value;
      if |s| == 1 then Some(d)
      else
        var front := Parse(s[..|s| - 1], base);
        if front.None? then None else Some(front.value * base + d)
  }

  function Zeros(n: nat): string {
    seq(n, _ => '0')
  }

  /** Fixed width by leading zeros; longer text stays. */
  function Padded(s: string, width: nat): string {
    if |s| < width then Zeros(width - |s|) + s else s
  }

  lemma DigitRoundTrip(d: nat)
    requires d < 16
    ensures DigitValue(DigitChar(d)) == Some(d)
    ensures d < 10 ==> '0' <= DigitChar(d) <= '9'
  {}

  lemma DivMod(n: nat, base: nat)
    requires Base16Or10(base)
    ensures n / base * base + n % base == n && n % base < base
    ensures n >= base ==> n / base < n
  {
    if base == 10 {
      assert n / 10 * 10 + n % 10 == n;
    } else {
      assert n / 16 * 16 + n % 16 == n;
    }
  }

  lemma {:induction false} ParsePrint(n: nat, base: nat)
    requires Base16Or10(base)
    ensures Parse(Print(n, base), base) == Some(n)
    ensures Print(n, base) != [] && forall c :: c in Print(n, base) ==> IsDigit(c, base)
  {
    DivMod(n, base);
    if n < base {
      DigitRoundTrip(n);
    } else {
      var d := n % base;
      DigitRoundTrip(d);
      ParsePrint(n / base, base);
      OneMoreDigit(Print(n / base, base), n / base, d, base);
    }
  }

  lemma OneMoreDigit(front: string, m: nat, d: nat, base: nat)
    requires Base16Or10(base) && d < base && front != [] && Parse(front, base) == Some(m)
    ensures Parse(front + [DigitChar(d)], base) == Some(m * base + d)
  {
    DigitRoundTrip(d);
    assert (front + [DigitChar(d)])[..|front|] == front;
  }

  /** Any text of digits has a value. */
  lemma {:induction false} ParseTotal(s: string, base: nat)
    requires Base16Or10(base)
    ensures Parse(s, base).Some? <==> s != [] && forall c :: c in s ==> IsDigit(c, base)
  {
    if |s| > 1 {
      ParseTotal(s[..|s| - 1], base);
      SameChars(s);
    }
  }

  lemma SameChars(s: string)
    requires s != []
    ensures forall c :: c in s <==> c in s[..|s| - 1] || c == s[|s| - 1]
  {
    assert s == s[..|s| - 1] + [s[|s| - 1]];
  }

  lemma ProductIsZero(m: nat, base: nat, d: nat)
    requires Base16Or10(base)
    ensures m * base + d == 0 <==> m == 0 && d == 0
  {}

  /** The value is zero exactly when every digit is. */
  lemma {:induction false} ZeroIff(s: string, base: nat)
    requires Base16Or10(base) && Parse(s, base).Some?
    ensures Parse(s, base) == Some(0) <==> forall c :: c in s ==> c == '0'
  {
    var front, last := s[..|s| - 1], s[|s| - 1];
    SameChars(s);
    assert last in s && (DigitValue(last).value == 0 <==> last == '0');
    if |s| > 1 {
      ZeroIff(front, base);
      ProductIsZero(Parse(front, base).value, base, DigitValue(last).value);
      forall c | c in s ensures c in front || c == last {}
      forall c | c in front ensures c in s {}
    }
  }

  lemma {:induction false} ZerosDoNotCount(k: nat, s: string, base: nat)
    requires Base16Or10(base) && s != []
    ensures Parse(Zeros(k) + s, base) == Parse(s, base)
  {
    var whole := Zeros(k) + s;
    var n := |s| - 1;
    if n == 0 {
      ZerosAreZero(k, base);
      assert k > 0 ==> whole[..|whole| - 1] == Zeros(k);
    } else {
      ZerosDoNotCount(k, s[..n], base);
      assert whole[..|whole| - 1] == Zeros(k) + s[..n];
    }
  }

  lemma {:induction false} ZerosAreZero(k: nat, base: nat)
    requires Base16Or10(base)
    ensures k > 0 ==> Parse(Zeros(k), base) == Some(0)
  {
    if k > 1 {
      ZerosAreZero(k - 1, base);
      assert Zeros(k)[..k - 1] == Zeros(k - 1);
    }
  }

  lemma PaddedKeepsValue(s: string, width: nat, base: nat)
    requires Base16Or10(base) && s != []
    ensures Parse(Padded(s, width), base) == Parse(s, base)
  {
    if |s| < width {
      ZerosDoNotCount(width - |s|, s, base);
    }
  }

  // ----- printed digits --------------------------------------------------------------------------

  ghost predicate PrintedDigits(s: string, base: nat)
    requires Base16Or10(base)
  {
    forall c :: c in s ==> c in "0123456789ABCDEF"[..base]
  }

  lemma PrintedDigitIs(c: char, base: nat)
    requires Base16Or10(base) && c in "0123456789ABCDEF"[..base]
    ensures IsDigit(c, base) && DigitChar(DigitValue(c).value) == c
    ensures DigitValue(c).value == 0 <==> c == '0'
  {
    var i :| 0 <= i < base && "0123456789ABCDEF"[..base][i] == c;
    DigitRoundTrip(i);
  }

  lemma DigitIsPrinted(d: nat, base: nat)
    requires Base16Or10(base) && d < base
    ensures DigitChar(d) in "0123456789ABCDEF"[..base] && (DigitChar(d) == '0' <==> d == 0)
  {
    assert DigitChar(d) == "0123456789ABCDEF"[..base][d];
  }

  lemma {:induction false} PrintIsPrinted(n: nat, base: nat)
    requires Base16Or10(base)
    ensures var s := Print(n, base); s != [] && PrintedDigits(s, base) && (s[0] == '0' <==> n == 0) && (n == 0 ==> s == "0")
  {
    DivMod(n, base);
    DigitIsPrinted(n % base, base);
    if n < base {
      DigitIsPrinted(n, base);
    } else {
      PrintIsPrinted(n / base, base);
      SameChars(Print(n / base, base));
    }
  }

  /** Printing undoes parsing when the first digit is not zero. */
  lemma {:induction false} PrintParse(s: string, base: nat) returns (n: nat)
    requires Base16Or10(base) && s != [] && PrintedDigits(s, base) && s[0] != '0'
    ensures n > 0 && Parse(s, base) == Some(n) && Print(n, base) == s
  {
    var k := |s| - 1;
    SameChars(s);
    PrintedDigitIs(s[k], base);
    assert s == s[..k] + [s[k]];
    if k == 0 {
      OneDigit(s[0], base);
      return DigitValue(s[0]).value;
    }
    var m := PrintParse(s[..k], base);
    n := PrintedStep(s[..k], m, s[k], base);
  }

  lemma PrintedStep(front: string, m: nat, c: char, base: nat) returns (n: nat)
    requires Base16Or10(base) && front != [] && m > 0 && Parse(front, base) == Some(m) && Print(m, base) == front
    requires IsDigit(c, base) && DigitChar(DigitValue(c).value) == c
    ensures n > 0 && Parse(front + [c], base) == Some(n) && Print(n, base) == front + [c]
  {
    n := m * base + DigitValue(c).value;
    PrintStep(m, DigitValue(c).value, base);
    OneMoreDigit(front, m, DigitValue(c).value, base);
  }

  lemma OneDigit(c: char, base: nat)
    requires Base16Or10(base) && IsDigit(c, base) && DigitChar(DigitValue(c).value) == c
    ensures Parse([c], base) == Some(DigitValue(c).value) && Print(DigitValue(c).value, base) == [c]
  {}

  lemma PrintStep(m: nat, d: nat, base: nat)
    requires Base16Or10(base) && d < base && m > 0
    ensures Print(m * base + d, base) == Print(m, base) + [DigitChar(d)] && m * base + d > 0
  {
    ShiftedDigit(m, d, base);
  }

  lemma ShiftedDigit(m: nat, d: nat, base: nat)
    requires Base16Or10(base) && d < base
    ensures (m * base + d) / base == m && (m * base + d) % base == d
    ensures m > 0 ==> m * base + d >= base
  {
    if base == 10 {
      assert (m * 10 + d) / 10 == m;
    } else {
      assert (m * 16 + d) / 16 == m;
    }
  }

  lemma {:induction false} LeadingZeros(s: string) returns (k: nat)
    ensures k <= |s| && s == Zeros(k) + s[k..] && (k < |s| ==> s[k] != '0')
  {
    if s == [] || s[0] != '0' { return 0; }
    k := LeadingZeros(s[1..]);
    assert s == [s[0]] + s[1..];
    assert Zeros(k + 1) == ['0'] + Zeros(k);
    k := k + 1;
  }

  /** Text padded to a width is the only text of that many digits, or of more without a zero in
      front, that has the value. */
  lemma PaddedPrintIff(n: nat, width: nat, s: string, base: nat)
    requires width > 0 && Base16Or10(base)
    ensures s == Padded(Print(n, base), width) <==>
              |s| >= width && PrintedDigits(s, base) && Parse(s, base) == Some(n) && (|s| > width ==> s[0] != '0')
  {
    PaddedIsPrinted(n, width, base);
    if |s| >= width && PrintedDigits(s, base) && Parse(s, base) == Some(n) && (|s| > width ==> s[0] != '0') {
      OnlyPadded(n, width, s, base);
    }
  }

  lemma PaddedIsPrinted(n: nat, width: nat, base: nat)
    requires width > 0 && Base16Or10(base)
    ensures var s := Padded(Print(n, base), width);
            |s| >= width && PrintedDigits(s, base) && Parse(s, base) == Some(n) && (|s| > width ==> s[0] != '0')
  {
    var p := Print(n, base);
    PrintIsPrinted(n, base);
    ParsePrint(n, base);
    PaddedKeepsValue(p, width, base);
    ZeroIsPrinted(base);
  }

  lemma ZeroIsPrinted(base: nat)
    requires Base16Or10(base)
    ensures '0' in "0123456789ABCDEF"[..base]
  {
    DigitIsPrinted(0, base);
  }

  lemma OnlyPadded(n: nat, width: nat, s: string, base: nat)
    requires width > 0 && Base16Or10(base)
    requires |s| >= width && PrintedDigits(s, base) && Parse(s, base) == Some(n) && (|s| > width ==> s[0] != '0')
    ensures s == Padded(Print(n, base), width)
  {
    var k := LeadingZeros(s);
    if k == |s| {
      ZerosAreZero(k, base);
      assert s == Zeros(k);
      assert Padded(Print(0, base), width) == Zeros(k);
    } else {
      ZerosDoNotCount(k, s[k..], base);
      var m := PrintParse(s[k..], base);
    }
  }
}
