/** Canonical Thunderbolt identities (`mapping/tb_identity.py`): one text per controller UID,
    whichever tool printed it, and the UID behind an RDMA device's node GUID. */
module Identity {
  import opened Base
  import opened Numerals

  datatype Value = Missing | Int(n: int) | Text(s: string)

  function StripLeft(s: string): string {
    if s != [] && Space(s[0]) then StripLeft(s[1..]) else s
  }

  function StripRight(s: string): string {
    if s != [] && Space(s[|s| - 1]) then StripRight(s[..|s| - 1]) else s
  }

  function Strip(s: string): string { StripRight(StripLeft(s)) }

  function LowerChar(c: char): char {
    if 'A' <= c <= 'Z' then 'a' + (c - 'A') else c
  }

  function Lower(s: string): string {
    seq(|s|, i requires 0 <= i < |s| => LowerChar(s[i]))
  }

  predicate AllDigits(s: string, base: nat) { forall c :: c in s ==> IsDigit(c, base) }

  predicate DecimalDigits(s: string) { s != [] && forall c :: c in s ==> '0' <= c <= '9' }

  /** What Python's `int` refuses to read in decimal. */
  const MAX_STR_DIGITS: nat := 4300

  /** Digits in groups: single underscores, and only between digits. */
  predicate Grouped(s: string) {
    s != [] && s[0] != '_' && s[|s| - 1] != '_' && forall i :: 0 <= i < |s| - 1 ==> s[i] != '_' || s[i + 1] != '_'
  }

  function Ungrouped(s: string): string {
    if s == [] then [] else (if s[0] == '_' then [] else [s[0]]) + Ungrouped(s[1..])
  }

  /** The digits of an unsigned number; base 16 may repeat its prefix. */
  function DigitsOf(u: string, base: nat): Option<string> {
    var prefixed := base == 16 && |u| >= 2 && u[0] == '0' && (u[1] == 'x' || u[1] == 'X');
    var v := if prefixed then u[2..] else u;
    var digits := if prefixed && v != [] && v[0] == '_' then v[1..] else v;
    if Grouped(digits) then Some(Ungrouped(digits)) else None
  }

  /** Python's `int(text, base)`: blanks around the number, a sign, a repeated prefix and
      underscores are allowed; a decimal number may not be too long. */
  function PyInt(text: string, base: nat): Option<int>
    requires Base16Or10(base)
  {
    var t := Strip(text);
    var signed := t != [] && (t[0] == '-' || t[0] == '+');
    var digits := DigitsOf(if signed then t[1..] else t, base);
    if digits.None? || (base == 10 && |digits.value| > MAX_STR_DIGITS) then None
    else
      var n := Parse(digits.value, base);
      if n.None? then None else if signed && t[0] == '-' then Some(0 - n.value as int) else Some(n.value)
  }

  /** `f"0x{number:016X}"`: a minus sign takes one of the sixteen places. */
  function Hex16(n: int): string {
    if n >= 0 then "0x" + Padded(Print(n, 16), 16) else "0x-" + Padded(Print(-n, 16), 15)
  }

  function UidNumber(low: string): Option<int> {
    if "0x" <= low then PyInt(low[2..], 16)
    else if DecimalDigits(low) then PyInt(low, 10)
    else if 1 <= |low| <= 16 && AllDigits(low, 16) then PyInt(low, 16)
    else None
  }

  function NormalizeUid(v: Value): Option<string> {
    match v
    case Missing => None
    case Int(n) => if n >= 0 then Some(Hex16(n)) else None
    case Text(s) =>
      var raw := Strip(s);
      if raw == [] then None
      else
        var number := UidNumber(Lower(raw));
        if number.None? then None else Some(Hex16(number.value))
  }

  // ----- the text forms agree ------------------------------------------------------------------

  lemma StripsNothing(s: string)
    requires s != [] ==> !Space(s[0]) && !Space(s[|s| - 1])
    ensures Strip(s) == s
  {}

  lemma {:induction false} LowerKeepsValue(s: string, base: nat)
    requires Base16Or10(base)
    ensures Parse(Lower(s), base) == Parse(s, base)
  {
    if s != [] {
      var n := |s| - 1;
      assert Lower(s)[..n] == Lower(s[..n]);
      assert DigitValue(LowerChar(s[n])) == DigitValue(s[n]);
      LowerKeepsValue(s[..n], base);
    }
  }

  lemma {:induction false} LowerAppend(a: string, b: string)
    ensures Lower(a + b) == Lower(a) + Lower(b)
  {}

  lemma PrefixedLower(rest: string)
    ensures Lower("0x" + rest) == "0x" + Lower(rest)
    ensures "0x" <= Lower("0x" + rest) && Lower("0x" + rest)[2..] == Lower(rest)
  {
    LowerAppend("0x", rest);
    assert Lower("0x") == "0x";
  }

  /** Text with the prefix and no blanks around it: what follows is read as a signed number. */
  lemma PrefixedNormalizes(rest: string, number: int)
    requires rest != [] && !Space(rest[|rest| - 1]) && PyInt(Lower(rest), 16) == Some(number)
    ensures NormalizeUid(Text("0x" + rest)) == Some(Hex16(number))
  {
    var s := "0x" + rest;
    assert s[|s| - 1] == rest[|rest| - 1];
    StripsNothing(s);
    PrefixedLower(rest);
  }

  lemma LowerStaysDigits(digits: string)
    requires AllDigits(digits, 16)
    ensures AllDigits(Lower(digits), 16) && |Lower(digits)| == |digits|
  {
    forall c | c in Lower(digits) ensures IsDigit(c, 16) {
      var i :| 0 <= i < |digits| && Lower(digits)[i] == c;
      assert IsDigit(digits[i], 16);
    }
  }

  lemma {:induction false} UngroupedPlain(s: string)
    requires '_' !in s
    ensures Ungrouped(s) == s
  {
    if s != [] {
      assert s[0] in s;
      UngroupedPlain(s[1..]);
      assert s == [s[0]] + s[1..];
    }
  }

  lemma PlainDigits(digits: string, base: nat)
    requires Base16Or10(base) && digits != [] && AllDigits(digits, base)
    ensures DigitsOf(digits, base) == Some(digits)
    ensures !Space(digits[0]) && !Space(digits[|digits| - 1]) && digits[0] != '-' && digits[0] != '+'
  {
    forall i | 0 <= i < |digits| ensures digits[i] != '_' && digits[i] != 'x' && digits[i] != 'X' && !Space(digits[i]) {
      assert IsDigit(digits[i], base);
    }
    assert IsDigit(digits[0], base);
    UngroupedPlain(digits);
  }

  /** Plain digits are read as they are, unless they are decimal and too many. */
  lemma PlainDigitsRead(digits: string, base: nat)
    requires Base16Or10(base) && digits != [] && AllDigits(digits, base)
    ensures Parse(digits, base).Some?
    ensures PyInt(digits, base) == if base == 10 && |digits| > MAX_STR_DIGITS then None else Some(Parse(digits, base).value)
  {
    PlainDigits(digits, base);
    StripsNothing(digits);
    ParseTotal(digits, base);
  }

  /** `0x` and hexadecimal digits of either case, padded or not: the canonical text of their
      value. */
  lemma HexTextNormalizes(digits: string)
    requires digits != [] && AllDigits(digits, 16)
    ensures Parse(digits, 16).Some?
    ensures NormalizeUid(Text("0x" + digits)) == Some(Hex16(Parse(digits, 16).value))
  {
    LowerStaysDigits(digits);
    PlainDigitsRead(Lower(digits), 16);
    LowerKeepsValue(digits, 16);
    PlainDigits(digits, 16);
    PrefixedNormalizes(digits, Parse(digits, 16).value);
  }

  /** The integer, its decimal text, unless that has more than 4300 digits, and its hexadecimal
      text (in either case and any zero-padding) all have one canonical form. */
  lemma FormsAgree(n: nat, width: nat)
    ensures NormalizeUid(Int(n)) == Some(Hex16(n))
    ensures NormalizeUid(Text(Print(n, 10))) == if |Print(n, 10)| > MAX_STR_DIGITS then None else Some(Hex16(n))
    ensures NormalizeUid(Text("0x" + Padded(Print(n, 16), width))) == Some(Hex16(n))
    ensures NormalizeUid(Text("0x" + Lower(Padded(Print(n, 16), width)))) == Some(Hex16(n))
  {
    DecimalNormalizes(n);
    HexNormalizes(n, width);
  }

  lemma HexNormalizes(n: nat, width: nat)
    ensures NormalizeUid(Text("0x" + Padded(Print(n, 16), width))) == Some(Hex16(n))
    ensures NormalizeUid(Text("0x" + Lower(Padded(Print(n, 16), width)))) == Some(Hex16(n))
  {
    var p := Padded(Print(n, 16), width);
    PaddedDigits(n, width);
    HexTextNormalizes(p);
    LowerStaysDigits(p);
    LowerKeepsValue(p, 16);
    HexTextNormalizes(Lower(p));
  }

  lemma PaddedDigits(n: nat, width: nat)
    ensures var p := Padded(Print(n, 16), width);
            p != [] && AllDigits(p, 16) && Parse(p, 16) == Some(n)
  {
    ParsePrint(n, 16);
    PaddedKeepsValue(Print(n, 16), width, 16);
    ParseTotal(Padded(Print(n, 16), width), 16);
  }

  lemma DecimalNormalizes(n: nat)
    ensures NormalizeUid(Text(Print(n, 10))) == if |Print(n, 10)| > MAX_STR_DIGITS then None else Some(Hex16(n))
  {
    var s := Print(n, 10);
    ParsePrint(n, 10);
    forall c | c in s ensures '0' <= c <= '9' { assert IsDigit(c, 10); }
    DecimalTextNormalizes(s, n);
  }

  lemma DecimalTextNormalizes(s: string, n: nat)
    requires DecimalDigits(s) && Parse(s, 10) == Some(n)
    ensures NormalizeUid(Text(s)) == if |s| > MAX_STR_DIGITS then None else Some(Hex16(n))
  {
    LowerIsPlain(s);
    DecimalIsRead(s);
  }

  lemma DecimalIsRead(s: string)
    requires DecimalDigits(s) && Parse(s, 10).Some?
    ensures Strip(s) == s
    ensures UidNumber(s) == if |s| > MAX_STR_DIGITS then None else Some(Parse(s, 10).value)
  {
    forall c | c in s ensures IsDigit(c, 10) { assert '0' <= c <= '9'; }
    PlainDigitsRead(s, 10);
    PlainDigits(s, 10);
    StripsNothing(s);
    NoPrefix(s);
  }

  lemma NoPrefix(s: string)
    requires DecimalDigits(s)
    ensures !("0x" <= s)
  {
    assert |s| > 1 ==> s[1] in s;
  }

  lemma LowerIsPlain(s: string)
    requires DecimalDigits(s)
    ensures Lower(s) == s
  {
    forall i | 0 <= i < |s| ensures LowerChar(s[i]) == s[i] { assert s[i] in s; }
  }

  /** The canonical form of a number is the only text of `0x` and upper-case hexadecimal digits,
      sixteen of them or more without a zero in front, that has its value. */
  lemma CanonicalFormIff(n: nat, s: string)
    ensures NormalizeUid(Int(n)) == Some(s) <==>
              && |s| >= 18 && s[..2] == "0x" && (forall c :: c in s[2..] ==> c in "0123456789ABCDEF")
              && Parse(s[2..], 16) == Some(n) && (|s| > 18 ==> s[2] != '0')
  {
    if |s| >= 2 && s[..2] == "0x" {
      assert s == "0x" + s[2..];
      PaddedPrintIff(n, 16, s[2..], 16);
      assert Hex16(n)[2..] == Padded(Print(n, 16), 16);
    } else {
      assert Hex16(n)[..2] == "0x";
    }
  }

  /** Different numbers never share a canonical form. */
  lemma CanonicalIsInjective(m: nat, n: nat)
    requires Hex16(m) == Hex16(n)
    ensures m == n
  {
    assert Hex16(m)[2..] == Padded(Print(m, 16), 16) && Hex16(n)[2..] == Padded(Print(n, 16), 16);
    PaddedDigits(m, 16);
    PaddedDigits(n, 16);
  }

  /** Normalising a normalised value changes nothing, for every value there is. */
  lemma NormalizeIsIdempotent(v: Value)
    requires NormalizeUid(v).Some?
    ensures NormalizeUid(Text(NormalizeUid(v).value)) == NormalizeUid(v)
  {
    var n: int := match v case Int(n) => n case Text(s) => UidNumber(Lower(Strip(s))).value;
    assert NormalizeUid(v).value == Hex16(n);
    if n >= 0 {
      HexNormalizes(n, 16);
    } else {
      NegativeNormalizes(n);
    }
  }

  /** The one odd family: `0x-…` is accepted as a negative number. */
  lemma NegativeNormalizes(n: int)
    requires n < 0
    ensures NormalizeUid(Text(Hex16(n))) == Some(Hex16(n))
  {
    var digits := Padded(Print(-n, 16), 15);
    PaddedDigits(-n, 15);
    MinusBehindPrefix(digits);
    NegativeTextNormalizes("-" + digits, -n);
  }

  lemma MinusBehindPrefix(digits: string)
    ensures "0x-" + digits == "0x" + ("-" + digits)
    ensures ("-" + digits)[1..] == digits
  {}

  lemma NegativeTextNormalizes(rest: string, n: nat)
    requires |rest| > 1 && rest[0] == '-' && AllDigits(rest[1..], 16) && Parse(rest[1..], 16) == Some(n)
    ensures NormalizeUid(Text("0x" + rest)) == Some(Hex16(0 - n as int))
  {
    MinusReads(rest, n);
    PrefixedNormalizes(rest, 0 - n as int);
  }

  lemma MinusReads(rest: string, n: nat)
    requires |rest| > 1 && rest[0] == '-' && AllDigits(rest[1..], 16) && Parse(rest[1..], 16) == Some(n)
    ensures !Space(rest[|rest| - 1]) && PyInt(Lower(rest), 16) == Some(0 - n as int)
  {
    var low, digits := Lower(rest), rest[1..];
    assert low[1..] == Lower(digits) && low[0] == '-';
    LowerKeepsValue(digits, 16);
    LowerStaysDigits(digits);
    PlainDigits(digits, 16);
    assert rest[|rest| - 1] == digits[|digits| - 1];
    MinusDigits(low, n);
  }

  lemma MinusDigits(low: string, n: nat)
    requires |low| > 1 && low[0] == '-' && AllDigits(low[1..], 16) && Parse(low[1..], 16) == Some(n)
    ensures PyInt(low, 16) == Some(0 - n as int)
  {
    var digits := low[1..];
    PlainDigits(digits, 16);
    assert low[|low| - 1] == digits[|digits| - 1];
    StripsNothing(low);
  }

  /** A text `0x-…` names no UID, yet the code answers with a text that is the canonical form
      of no number. It does so exactly for a minus sign behind the prefix and a digit other
      than zero. */
  lemma CanonicalUnlessNegative(s: string)
    requires NormalizeUid(Text(s)).Some?
    ensures (exists n: nat :: NormalizeUid(Text(s)) == Some(Hex16(n))) <==> !NegativeHex(Lower(Strip(s)))
  {
    var low := Lower(Strip(s));
    var number := UidNumber(low).value;
    NegativeIff(low);
    if number < 0 {
      forall n: nat ensures Hex16(n) != Hex16(number) {
        NonNegativeHasNoMinus(n);
        assert Hex16(number)[2] == '-';
      }
    }
  }

  lemma NegativeIff(low: string)
    requires UidNumber(low).Some?
    ensures UidNumber(low).value < 0 <==> NegativeHex(low)
  {
    if "0x" <= low {
      var t := Strip(low[2..]);
      if t != [] && t[0] == '-' {
        ZeroIff(DigitsOf(t[1..], 16).value, 16);
      }
    } else if DecimalDigits(low) {
      PlainDigitsRead(low, 10) by { forall c | c in low ensures IsDigit(c, 10) {} }
    } else {
      PlainDigitsRead(low, 16);
    }
  }

  /** A minus sign right behind the prefix, and digits that are not all zero. */
  predicate NegativeHex(low: string) {
    "0x" <= low
    && var t := Strip(low[2..]);
       t != [] && t[0] == '-' && DigitsOf(t[1..], 16).Some? && exists c :: c in DigitsOf(t[1..], 16).value && c != '0'
  }

  /** The odd family is not empty. */
  lemma MinusFiveIsAccepted()
    ensures NormalizeUid(Text("0x" + ("-" + "5"))) == Some(Hex16(-5))
    ensures forall n: nat :: Hex16(n) != Hex16(-5)
  {
    MinusBehindPrefix("5");
    assert Parse("5", 16) == Some(5);
    NegativeTextNormalizes("-" + "5", 5);
    forall n: nat ensures Hex16(n) != Hex16(-5) {
      NonNegativeHasNoMinus(n);
    }
  }

  lemma NonNegativeHasNoMinus(n: nat)
    ensures |Hex16(n)| > 2 && Hex16(n)[2] != '-'
  {
    var p := Padded(Print(n, 16), 16);
    PaddedDigits(n, 16);
    assert p[0] in p && IsDigit(p[0], 16);
    BehindPrefix(p);
  }

  lemma BehindPrefix(p: string)
    requires p != []
    ensures |"0x" + p| > 2 && ("0x" + p)[2] == p[0]
  {}

  // ----- node GUIDs ---------------------------------------------------------------------------

  function BytesOf(n: nat, k: nat): (bytes: seq<Byte>)
    ensures |bytes| == k
  {
    if k == 0 then [] else BytesOf(n / 256, k - 1) + [n % 256]
  }

  function NumberOf(bytes: seq<Byte>): nat {
    if bytes == [] then 0 else NumberOf(bytes[..|bytes| - 1]) * 256 + bytes[|bytes| - 1]
  }

  function Reversed(bytes: seq<Byte>): (r: seq<Byte>)
    ensures |r| == |bytes|
  {
    seq(|bytes|, i requires 0 <= i < |bytes| => bytes[|bytes| - 1 - i])
  }

  /** What swapping the byte order of a 64-bit value does. */
  function ByteSwap(n: nat): nat {
    NumberOf(Reversed(BytesOf(n, 8)))
  }

  function Pow256(k: nat): nat {
    if k == 0 then 1 else 256 * Pow256(k - 1)
  }

  lemma {:induction false} BytesRoundTrip(bytes: seq<Byte>)
    ensures BytesOf(NumberOf(bytes), |bytes|) == bytes
    ensures NumberOf(bytes) < Pow256(|bytes|)
  {
    if bytes != [] {
      var n := |bytes| - 1;
      BytesRoundTrip(bytes[..n]);
      assert bytes == bytes[..n] + [bytes[n]];
    }
  }

  lemma DivMod256(n: nat, p: nat)
    ensures n / 256 * 256 + n % 256 == n
    ensures n < 256 * p ==> n / 256 < p
  {}

  lemma {:induction false} NumberRoundTrip(n: nat, k: nat)
    requires n < Pow256(k)
    ensures NumberOf(BytesOf(n, k)) == n
  {
    if k > 0 {
      DivMod256(n, Pow256(k - 1));
      NumberRoundTrip(n / 256, k - 1);
      var b := BytesOf(n, k);
      assert b[..k - 1] == BytesOf(n / 256, k - 1);
    }
  }

  /** Reversing the byte order twice gives back every 64-bit value, and stays in 64 bits. */
  lemma ByteSwapIsAnInvolution(n: nat)
    requires n < Pow256(8)
    ensures ByteSwap(n) < Pow256(8) && ByteSwap(ByteSwap(n)) == n
  {
    var b := BytesOf(n, 8);
    BytesRoundTrip(Reversed(b));
    assert Reversed(Reversed(b)) == b;
    NumberRoundTrip(n, 8);
  }

  function ByteHex(b: Byte): string {
    [DigitChar(b / 16), DigitChar(b % 16)]
  }

  /** Two hexadecimal digits per byte. */
  function HexOf(bytes: seq<Byte>): string {
    if bytes == [] then [] else
      var n := |bytes| - 1;
      HexOf(bytes[..n]) + ByteHex(bytes[n])
  }

  /** `bytes.fromhex` on an even number of digits. */
  function FromHex(s: string): Option<seq<Byte>> {
    if s == [] then Some([])
    else if |s| == 1 then None
    else
      var n := |s| - 2;
      var front, hi, lo := FromHex(s[..n]), DigitValue(s[n]), DigitValue(s[n + 1]);
      if front.None? || hi.None? || lo.None? then None
      else Some(front.value + [hi.value * 16 + lo.value])
  }

  /** `^[0-9a-f]{4}(:[0-9a-f]{4}){3}$`, any case. */
  predicate IsGuid(s: string) {
    && |s| == 19 && s[4] == ':' && s[9] == ':' && s[14] == ':'
    && AllDigits(s[..4] + s[5..9] + s[10..14] + s[15..], 16)
  }

  function ControllerUidFromNodeGuid(guid: string): Option<string> {
    var raw := Strip(guid);
    if !IsGuid(raw) then None
    else
      var data := FromHex(raw[..4] + raw[5..9] + raw[10..14] + raw[15..]);
      if data.None? then None else NormalizeUid(Int(NumberOf(Reversed(data.value))))
  }

  /** How a GUID shows a 64-bit value: its bytes in four groups. */
  function GuidText(n: nat): string {
    var h := HexOf(BytesOf(n, 8));
    if |h| == 16 then h[..4] + ":" + h[4..8] + ":" + h[8..12] + ":" + h[12..] else ""
  }

  lemma {:induction false} HexRoundTrip(bytes: seq<Byte>)
    ensures |HexOf(bytes)| == 2 * |bytes| && FromHex(HexOf(bytes)) == Some(bytes)
  {
    if bytes != [] {
      var n := |bytes| - 1;
      HexRoundTrip(bytes[..n]);
      HexOneMore(HexOf(bytes[..n]), bytes[..n], bytes[n]);
      assert bytes == bytes[..n] + [bytes[n]];
    }
  }

  lemma HexOneMore(front: string, bytes: seq<Byte>, b: Byte)
    requires FromHex(front) == Some(bytes) && |front| == 2 * |bytes|
    ensures FromHex(front + ByteHex(b)) == Some(bytes + [b]) && |front + ByteHex(b)| == 2 * |bytes + [b]|
  {
    Nibbles(b);
    FromHexStep(front, bytes, DigitChar(b / 16), DigitChar(b % 16), b / 16, b % 16);
  }

  lemma Nibbles(b: Byte)
    ensures 0 <= b / 16 < 16 && b / 16 * 16 + b % 16 == b
    ensures DigitValue(DigitChar(b / 16)) == Some(b / 16) && DigitValue(DigitChar(b % 16)) == Some(b % 16)
  {
    DigitRoundTrip(b / 16);
    DigitRoundTrip(b % 16);
  }

  lemma FromHexStep(front: string, bytes: seq<Byte>, hi: char, lo: char, h: nat, l: nat)
    requires FromHex(front) == Some(bytes) && DigitValue(hi) == Some(h) && DigitValue(lo) == Some(l) && h * 16 + l < 256
    ensures FromHex(front + [hi, lo]) == Some(bytes + [h * 16 + l])
  {
    var s := front + [hi, lo];
    assert s[..|s| - 2] == front;
  }

  lemma {:induction false} HexIsDigits(bytes: seq<Byte>)
    ensures AllDigits(HexOf(bytes), 16)
  {
    if bytes != [] {
      var last := bytes[|bytes| - 1];
      HexIsDigits(bytes[..|bytes| - 1]);
      Nibbles(last);
    }
  }

  /** The GUID of an RDMA device on the bus with a given UID leads back to that UID: the GUID
      shows the UID's bytes in reverse. */
  lemma GuidLeadsToItsUid(uid: nat)
    requires uid < Pow256(8)
    ensures ControllerUidFromNodeGuid(GuidText(ByteSwap(uid))) == Some(Hex16(uid))
  {
    ByteSwapIsAnInvolution(uid);
    GuidReadsBack(ByteSwap(uid));
  }

  lemma GuidReadsBack(n: nat)
    ensures ControllerUidFromNodeGuid(GuidText(n)) == Some(Hex16(ByteSwap(n)))
  {
    var b := BytesOf(n, 8);
    HexRoundTrip(b);
    HexIsDigits(b);
    var h, g := HexOf(b), GuidText(n);
    GuidParts(h, g);
    assert IsDigit(h[0], 16) && IsDigit(h[15], 16);
    StripsNothing(g);
  }

  lemma GuidParts(h: string, g: string)
    requires |h| == 16 && g == h[..4] + ":" + h[4..8] + ":" + h[8..12] + ":" + h[12..]
    ensures |g| == 19 && g[4] == ':' && g[9] == ':' && g[14] == ':' && g[0] == h[0] && g[18] == h[15]
    ensures g[..4] + g[5..9] + g[10..14] + g[15..] == h
  {
    assert g[..4] == h[..4] && g[5..9] == h[4..8] && g[10..14] == h[8..12] && g[15..] == h[12..];
  }
}
