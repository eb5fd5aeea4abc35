/** Which texts `normalize_uid` takes for a UID and for which one, in terms of how a text is put
    together (`mapping/tb_identity.py`, with ASCII digits). */
module UidForms {
  import opened Base
  import opened Numerals
  import opened Identity

  // ----- the forms -------------------------------------------------------------------------------

  ghost predicate Trimmed(s: string) {
    s != [] && !Blanks([s[0]]) && !Blanks([s[|s| - 1]])
  }

  ghost predicate Decimals(s: string) { s != [] && forall c :: c in s ==> c in "0123456789" }

  ghost predicate HexDigits(s: string) { s != [] && forall c :: c in s ==> c in "0123456789abcdefABCDEF" }

  /** Runs of digits. */
  ghost predicate Runs(groups: seq<string>) { groups != [] && forall g :: g in groups ==> HexDigits(g) }

  /** The runs with single underscores between them. */
  ghost function Joined(groups: seq<string>): string
    requires groups != []
  {
    if |groups| == 1 then groups[0] else Joined(groups[..|groups| - 1]) + "_" + groups[|groups| - 1]
  }

  /** The runs alone. */
  ghost function Together(groups: seq<string>): string {
    if groups == [] then [] else Together(groups[..|groups| - 1]) + groups[|groups| - 1]
  }

  ghost predicate Mark(mark: string) { mark in {"", "0x", "0X", "0x_", "0X_"} }

  /** An unsigned number: the prefix once more or not, and runs of digits. */
  ghost predicate Unsigned(u: string, mark: string, groups: seq<string>) {
    Mark(mark) && Runs(groups) && u == mark + Joined(groups)
  }

  ghost predicate HasValue(u: string, n: nat) {
    exists mark, groups :: Unsigned(u, mark, groups) && Parse(Together(groups), 16) == Some(n)
  }

  ghost predicate Signed(t: string, sign: string, u: string, n: int) {
    sign in {"", "+", "-"} && t == sign + u && HasValue(u, if n < 0 then -n else n) && (if sign == "-" then n <= 0 else n >= 0)
  }

  /** What may stand behind the prefix: a number with or without a sign, blanks around it. */
  ghost predicate SignedHex(rest: string, n: int) {
    exists a, t, b :: Blanks(a) && Blanks(b) && rest == a + t + b && exists sign, u :: Signed(t, sign, u, n)
  }

  /** A text without blanks around it, and the number it stands for: hexadecimal behind a prefix,
      decimal if all of it is decimal digits, otherwise up to sixteen hexadecimal digits. */
  ghost predicate Core(core: string, n: int) {
    if |core| >= 2 && core[0] == '0' && (core[1] == 'x' || core[1] == 'X') then SignedHex(core[2..], n)
    else if Decimals(core) then |core| <= 4300 && n >= 0 && Parse(core, 10) == Some(n)
    else |core| <= 16 && HexDigits(core) && n >= 0 && Parse(core, 16) == Some(n)
  }

  ghost predicate Denotes(s: string, n: int) {
    exists a, core, b :: Blanks(a) && Blanks(b) && s == a + core + b && Trimmed(core) && Core(core, n)
  }

  /** A text is accepted exactly when it stands for a number, and becomes the form of that number. */
  lemma NormalizeIff(s: string, t: string)
    ensures NormalizeUid(Text(s)) == Some(t) <==> exists n :: Denotes(s, n) && t == Hex16(n)
  {
    var core := Strip(s);
    if NormalizeUid(Text(s)) == Some(t) {
      var n := UidNumber(Lower(core)).value;
      DenotesIff(s, n);
    }
    if n :| Denotes(s, n) && t == Hex16(n) {
      DenotesIff(s, n);
    }
  }

  lemma DenotesIff(s: string, n: int)
    ensures Denotes(s, n) <==> Strip(s) != [] && UidNumber(Lower(Strip(s))) == Some(n)
  {
    var a, b := StripIs(s);
    if Strip(s) != [] {
      CoreIff(Strip(s), n);
    }
    if x, core, y :| Blanks(x) && Blanks(y) && s == x + core + y && Trimmed(core) && Core(core, n) {
      StripFinds(x, core, y);
    }
  }

  // ----- blanks ------------------------------------------------------------------------------------

  lemma {:induction false} LeftIs(s: string) returns (a: string)
    ensures Blanks(a) && s == a + StripLeft(s) && (StripLeft(s) != [] ==> !Space(StripLeft(s)[0]))
  {
    a := [];
    if s != [] && Space(s[0]) {
      var rest := LeftIs(s[1..]);
      a := [s[0]] + rest;
    }
  }

  lemma {:induction false} RightIs(s: string) returns (b: string)
    ensures Blanks(b) && s == StripRight(s) + b && (StripRight(s) != [] ==> !Space(StripRight(s)[|StripRight(s)| - 1]))
  {
    b := [];
    if s != [] && Space(s[|s| - 1]) {
      var rest := RightIs(s[..|s| - 1]);
      b := rest + [s[|s| - 1]];
    }
  }

  lemma StripIs(s: string) returns (a: string, b: string)
    ensures Blanks(a) && Blanks(b) && s == a + Strip(s) + b && (Strip(s) != [] ==> Trimmed(Strip(s)))
  {
    a := LeftIs(s);
    b := RightIs(StripLeft(s));
    if Strip(s) != [] {
      BothEnds(Strip(s), b);
    }
  }

  lemma BothEnds(t: string, b: string)
    requires t != [] && !Space((t + b)[0]) && !Space(t[|t| - 1])
    ensures Trimmed(t)
  {
    assert (t + b)[0] == t[0];
    SpaceIs(t[0]);
    SpaceIs(t[|t| - 1]);
  }

  lemma {:induction false} LeftFinds(a: string, t: string)
    requires Blanks(a) && t != [] && !Blanks([t[0]])
    ensures StripLeft(a + t) == t
  {
    if a == [] {
      assert a + t == t;
      SpaceIs(t[0]);
    } else {
      assert a[0] in a && (a + t)[1..] == a[1..] + t && forall c :: c in a[1..] ==> c in a;
      LeftFinds(a[1..], t);
    }
  }

  lemma {:induction false} RightFinds(t: string, b: string)
    requires Blanks(b) && t != [] && !Blanks([t[|t| - 1]])
    ensures StripRight(t + b) == t
  {
    if b == [] {
      assert t + b == t;
      SpaceIs(t[|t| - 1]);
    } else {
      var n := |b| - 1;
      assert b[n] in b && (t + b)[..|t + b| - 1] == t + b[..n] && forall c :: c in b[..n] ==> c in b;
      RightFinds(t, b[..n]);
    }
  }

  lemma StripFinds(a: string, core: string, b: string)
    requires Blanks(a) && Blanks(b) && Trimmed(core)
    ensures Strip(a + core + b) == core
  {
    assert a + core + b == a + (core + b) && (core + b)[0] == core[0];
    LeftFinds(a, core + b);
    RightFinds(core, b);
  }

  // ----- case --------------------------------------------------------------------------------------

  lemma LowerOf(c: char)
    ensures LowerChar(c) == 'x' <==> c == 'x' || c == 'X'
    ensures LowerChar(c) == c || ('A' <= c <= 'Z' && 'a' <= LowerChar(c) <= 'z')
    ensures Space(LowerChar(c)) <==> Space(c)
    ensures DigitValue(LowerChar(c)) == DigitValue(c)
  {}

  lemma {:induction false} LowerLeft(s: string)
    ensures StripLeft(Lower(s)) == Lower(StripLeft(s))
  {
    if s != [] {
      LowerOf(s[0]);
      LowerLeft(s[1..]);
      assert Lower(s)[1..] == Lower(s[1..]);
    }
  }

  lemma {:induction false} LowerRight(s: string)
    ensures StripRight(Lower(s)) == Lower(StripRight(s))
  {
    if s != [] {
      LowerOf(s[|s| - 1]);
      LowerRight(s[..|s| - 1]);
      assert Lower(s)[..|s| - 1] == Lower(s[..|s| - 1]);
    }
  }

  lemma {:induction false} LowerUngrouped(s: string)
    ensures Ungrouped(Lower(s)) == Lower(Ungrouped(s))
  {
    if s != [] {
      LowerOf(s[0]);
      LowerUngrouped(s[1..]);
      assert Lower(s)[1..] == Lower(s[1..]);
      LowerAppend(if s[0] == '_' then [] else [s[0]], Ungrouped(s[1..]));
    }
  }

  lemma LowerGrouped(s: string)
    ensures Grouped(Lower(s)) <==> Grouped(s)
  {
    forall i | 0 <= i < |s| ensures Lower(s)[i] == '_' <==> s[i] == '_' { LowerOf(s[i]); }
  }

  lemma LowerDigitsOf(u: string)
    ensures DigitsOf(Lower(u), 16) == if DigitsOf(u, 16).None? then None else Some(Lower(DigitsOf(u, 16).value))
  {
    forall i | 0 <= i < |u| ensures (Lower(u)[i] == '0' <==> u[i] == '0') && (Lower(u)[i] == '_' <==> u[i] == '_') { LowerOf(u[i]); }
    if |u| >= 2 { LowerOf(u[1]); }
    var prefixed := |u| >= 2 && u[0] == '0' && (u[1] == 'x' || u[1] == 'X');
    var v := if prefixed then u[2..] else u;
    if prefixed { assert Lower(u)[2..] == Lower(v); }
    var digits := if prefixed && v != [] && v[0] == '_' then v[1..] else v;
    if digits != v { assert Lower(v)[1..] == Lower(digits); }
    LowerGrouped(digits);
    LowerUngrouped(digits);
  }

  ghost function SignOf(t: string): string {
    if t != [] && (t[0] == '-' || t[0] == '+') then [t[0]] else []
  }

  ghost function Body(t: string): string { t[|SignOf(t)|..] }

  ghost function Number(sign: string, digits: Option<string>): Option<int> {
    if digits.None? || Parse(digits.value, 16).None? then None
    else if sign == "-" then Some(0 - Parse(digits.value, 16).value as int) else Some(Parse(digits.value, 16).value)
  }

  lemma PyIntIs(text: string)
    ensures PyInt(text, 16) == Number(SignOf(Strip(text)), DigitsOf(Body(Strip(text)), 16))
  {
    var t := Strip(text);
    assert Body(t) == if t != [] && (t[0] == '-' || t[0] == '+') then t[1..] else t;
  }

  lemma LowerSign(t: string)
    ensures SignOf(Lower(t)) == SignOf(t) && Body(Lower(t)) == Lower(Body(t))
  {
    if t != [] { LowerOf(t[0]); }
    assert Body(Lower(t)) == Lower(Body(t));
  }

  lemma LowerNumber(sign: string, u: string)
    ensures Number(sign, DigitsOf(Lower(u), 16)) == Number(sign, DigitsOf(u, 16))
  {
    LowerDigitsOf(u);
    if DigitsOf(u, 16).Some? {
      LowerKeepsValue(DigitsOf(u, 16).value, 16);
    }
  }

  /** The number behind the prefix does not depend on the case of the text. */
  lemma LowerReads(text: string)
    ensures PyInt(Lower(text), 16) == PyInt(text, 16)
  {
    LowerLeft(text);
    LowerRight(StripLeft(text));
    LowerSign(Strip(text));
    LowerNumber(SignOf(Strip(text)), Body(Strip(text)));
    PyIntIs(text);
    PyIntIs(Lower(text));
  }

  // ----- runs of digits ----------------------------------------------------------------------------

  lemma HexDigitIs(c: char)
    ensures c in "0123456789abcdefABCDEF" <==> IsDigit(c, 16)
    ensures c in "0123456789" <==> '0' <= c <= '9'
    ensures IsDigit(c, 10) <==> '0' <= c <= '9'
  {
    DecimalIs(c);
    assert "0123456789abcdefABCDEF" == "0123456789" + "abcdef" + "ABCDEF";
    if 'a' <= c <= 'f' { assert "abcdef"[c as int - 'a' as int] == c; }
    if 'A' <= c <= 'F' { assert "ABCDEF"[c as int - 'A' as int] == c; }
  }

  lemma DecimalIs(c: char)
    ensures c in "0123456789" <==> '0' <= c <= '9'
  {
    if '0' <= c <= '9' { assert "0123456789"[c as int - '0' as int] == c; }
  }

  lemma HexDigitsAre(s: string)
    ensures HexDigits(s) <==> s != [] && AllDigits(s, 16)
    ensures Decimals(s) <==> DecimalDigits(s)
  {
    forall c | c in s
      ensures (c in "0123456789abcdefABCDEF" <==> IsDigit(c, 16)) && (c in "0123456789" <==> '0' <= c <= '9')
    {
      HexDigitIs(c);
    }
  }

  lemma {:induction false} UngroupedAppend(a: string, b: string)
    ensures Ungrouped(a + b) == Ungrouped(a) + Ungrouped(b)
  {
    if a == [] {
      assert a + b == b;
    } else {
      assert (a + b)[1..] == a[1..] + b;
      UngroupedAppend(a[1..], b);
    }
  }

  lemma TogetherSnoc(groups: seq<string>, last: string)
    ensures Together(groups + [last]) == Together(groups) + last
  {
    assert (groups + [last])[..|groups|] == groups;
  }

  lemma JoinedSnoc(groups: seq<string>, last: string)
    requires groups != []
    ensures Joined(groups + [last]) == Joined(groups) + "_" + last
  {
    assert (groups + [last])[..|groups|] == groups;
  }

  /** A text of digits and single underscores between them, and what it is without these. */
  ghost predicate GroupsOut(s: string, digits: string) {
    && Grouped(s) && Ungrouped(s) == digits && AllDigits(digits, 16)
    && IsDigit(s[0], 16) && IsDigit(s[|s| - 1], 16) && forall c :: c in s ==> c == '_' || IsDigit(c, 16)
  }

  /** Runs joined are grouped, and come apart as they were. */
  lemma {:induction false} JoinedIsGrouped(groups: seq<string>)
    requires Runs(groups)
    ensures GroupsOut(Joined(groups), Together(groups))
  {
    var n := |groups| - 1;
    var front, last := groups[..n], groups[n];
    assert last in groups && groups == front + [last];
    TogetherSnoc(front, last);
    RunIsGrouped(last);
    if n == 0 {
      assert Together(front) == [] && [] + last == last;
    } else {
      JoinedIsGrouped(front);
      JoinedOut(Joined(front), Together(front), last);
    }
  }

  lemma RunIsGrouped(g: string)
    requires HexDigits(g)
    ensures GroupsOut(g, g)
  {
    HexDigitsAre(g);
    assert '_' !in g;
    assert forall i :: 0 <= i < |g| ==> g[i] in g;
    UngroupedPlain(g);
  }

  lemma JoinedOut(a: string, digits: string, b: string)
    requires GroupsOut(a, digits) && GroupsOut(b, b) && HexDigits(b)
    ensures GroupsOut(a + "_" + b, digits + b)
  {
    HexDigitsAre(b);
    assert '_' !in b;
    JoinGroups(a, b);
    var s := a + "_" + b;
    assert s[0] == a[0] && s[|s| - 1] == b[|b| - 1];
  }

  lemma JoinGroups(a: string, b: string)
    requires Grouped(a) && b != [] && '_' !in b
    ensures Grouped(a + "_" + b) && Ungrouped(a + "_" + b) == Ungrouped(a) + b
  {
    StaysGrouped(a, b);
    LoneUngrouped(a, b);
  }

  lemma LoneUngrouped(a: string, b: string)
    requires '_' !in b
    ensures Ungrouped(a + "_" + b) == Ungrouped(a) + b
  {
    UngroupedPlain(b);
    LoneAtEnd(a);
    UngroupedAppend(a + "_", b);
  }

  lemma LoneAtEnd(a: string)
    ensures Ungrouped(a + "_") == Ungrouped(a)
  {
    UngroupedAppend(a, "_");
    UngroupedLone("_");
  }

  lemma UngroupedLone(s: string)
    requires |s| == 1
    ensures Ungrouped(s) == if s[0] == '_' then [] else s
  {
    assert s[1..] == [];
  }

  lemma StaysGrouped(a: string, b: string)
    requires Grouped(a) && b != [] && '_' !in b
    ensures Grouped(a + "_" + b)
  {
    var s := a + "_" + b;
    assert s[0] == a[0];
    forall i | |a| < i < |s| ensures s[i] != '_' { assert s[i] == b[i - |a| - 1] && b[i - |a| - 1] in b; }
    forall i | 0 <= i < |a| ensures s[i] == a[i] {}
  }

  /** Grouped digits are joined runs. */
  lemma {:induction false} GroupsOf(s: string) returns (groups: seq<string>)
    requires Grouped(s) && AllDigits(Ungrouped(s), 16)
    ensures Runs(groups) && s == Joined(groups)
    decreases |s|
  {
    var n := |s| - 1;
    var front, c := s[..n], s[n];
    assert s == front + [c];
    UngroupedAppend(front, [c]);
    UngroupedLone([c]);
    assert c in Ungrouped(s);
    HexDigitIs(c);
    forall d | d in Ungrouped(front) ensures d in Ungrouped(s) {}
    if n == 0 {
      groups := [[c]];
    } else if s[n - 1] == '_' {
      var less := front[..n - 1];
      assert front == less + "_";
      LoneAtEnd(less);
      GroupedFront(s, n - 1);
      groups := GroupsOf(less);
      JoinedSnoc(groups, [c]);
      groups := groups + [[c]];
    } else {
      GroupedFront(s, n);
      var runs := GroupsOf(front);
      groups := LongerRun(runs, c);
    }
  }

  lemma GroupedFront(s: string, n: nat)
    requires Grouped(s) && 0 < n <= |s| && s[n - 1] != '_'
    ensures Grouped(s[..n])
  {}

  lemma LongerRun(runs: seq<string>, c: char) returns (groups: seq<string>)
    requires Runs(runs) && c in "0123456789abcdefABCDEF"
    ensures Runs(groups) && Joined(groups) == Joined(runs) + [c]
  {
    var n := |runs| - 1;
    assert runs[n] in runs && runs == runs[..n] + [runs[n]];
    groups := runs[..n] + [runs[n] + [c]];
    if n > 0 {
      JoinedSnoc(runs[..n], runs[n]);
      JoinedSnoc(runs[..n], runs[n] + [c]);
    }
  }

  // ----- numbers -----------------------------------------------------------------------------------

  lemma UnsignedReads(u: string, mark: string, groups: seq<string>)
    requires Unsigned(u, mark, groups)
    ensures DigitsOf(u, 16) == Some(Together(groups)) && Trimmed(u) && u[0] != '-' && u[0] != '+'
  {
    var s := Joined(groups);
    JoinedIsGrouped(groups);
    assert u[|u| - 1] == s[|s| - 1] && u[0] == if mark == "" then s[0] else '0';
    SpaceIs(u[0]);
    SpaceIs(u[|u| - 1]);
    MarkIsSkipped(mark, s);
  }

  lemma MarkIsSkipped(mark: string, s: string)
    requires Mark(mark) && Grouped(s) && forall c :: c in s ==> c == '_' || IsDigit(c, 16)
    ensures DigitsOf(mark + s, 16) == Some(Ungrouped(s))
  {
    if mark == "" {
      assert mark + s == s;
      NoPrefixToSkip(s);
    } else {
      PrefixIsSkipped([mark[0], mark[1]], mark[2..], s);
      assert [mark[0], mark[1]] + mark[2..] == mark;
    }
  }

  lemma NoPrefixToSkip(s: string)
    requires Grouped(s) && forall c :: c in s ==> c == '_' || IsDigit(c, 16)
    ensures DigitsOf(s, 16) == Some(Ungrouped(s))
  {
    assert |s| >= 2 ==> s[1] in s;
  }

  lemma PrefixIsSkipped(x: string, mark: string, s: string)
    requires x == "0x" || x == "0X"
    requires (mark == "" || mark == "_") && Grouped(s)
    ensures DigitsOf(x + mark + s, 16) == Some(Ungrouped(s))
  {
    var u := x + mark + s;
    assert u[0] == x[0] && u[1] == x[1] && u[2..] == mark + s;
    if mark == "_" { assert (mark + s)[0] == '_' && (mark + s)[1..] == s; } else { assert mark + s == s; }
  }

  lemma UnsignedForm(u: string) returns (mark: string, groups: seq<string>)
    requires DigitsOf(u, 16).Some? && Parse(DigitsOf(u, 16).value, 16).Some?
    ensures Unsigned(u, mark, groups) && Together(groups) == DigitsOf(u, 16).value
  {
    var prefixed := |u| >= 2 && u[0] == '0' && (u[1] == 'x' || u[1] == 'X');
    var v := if prefixed then u[2..] else u;
    var digits := if prefixed && v != [] && v[0] == '_' then v[1..] else v;
    mark := if !prefixed then "" else if digits != v then [u[0], u[1], '_'] else [u[0], u[1]];
    assert u == mark + digits;
    ParseTotal(Ungrouped(digits), 16);
    groups := GroupsOf(digits);
    JoinedIsGrouped(groups);
    assert mark in {"", "0x", "0X", "0x_", "0X_"};
  }

  lemma HasValueIff(u: string, n: nat)
    ensures HasValue(u, n) <==> DigitsOf(u, 16).Some? && Parse(DigitsOf(u, 16).value, 16) == Some(n)
    ensures HasValue(u, n) ==> Trimmed(u) && u[0] != '-' && u[0] != '+'
  {
    if DigitsOf(u, 16).Some? && Parse(DigitsOf(u, 16).value, 16) == Some(n) {
      var mark, groups := UnsignedForm(u);
    }
    if mark, groups :| Unsigned(u, mark, groups) && Parse(Together(groups), 16) == Some(n) {
      UnsignedReads(u, mark, groups);
    }
  }

  lemma SignedReads(t: string, sign: string, u: string, n: int)
    requires Signed(t, sign, u, n)
    ensures Trimmed(t) && Number(SignOf(t), DigitsOf(Body(t), 16)) == Some(n)
  {
    HasValueIff(u, if n < 0 then -n else n);
    assert t[|t| - 1] == u[|u| - 1] && t[0] == if sign == "" then u[0] else sign[0];
    SpaceIs(t[0]);
    assert SignOf(t) == sign && Body(t) == u;
  }

  lemma PyIntIff(text: string, n: int)
    ensures PyInt(text, 16) == Some(n) <==> SignedHex(text, n)
  {
    var a, b := StripIs(text);
    if PyInt(text, 16) == Some(n) {
      SignedForm(text, n);
    }
    if x, w, y :| Blanks(x) && Blanks(y) && text == x + w + y && exists sign, u :: Signed(w, sign, u, n) {
      var sign, u :| Signed(w, sign, u, n);
      SignedReads(w, sign, u, n);
      StripFinds(x, w, y);
      PyIntIs(text);
    }
  }

  lemma SignedForm(text: string, n: int)
    requires PyInt(text, 16) == Some(n)
    ensures Signed(Strip(text), SignOf(Strip(text)), Body(Strip(text)), n)
  {
    var t := Strip(text);
    PyIntIs(text);
    assert t == SignOf(t) + Body(t);
    HasValueIff(Body(t), if n < 0 then -n else n);
  }

  lemma CoreIff(core: string, n: int)
    requires Trimmed(core)
    ensures Core(core, n) <==> UidNumber(Lower(core)) == Some(n)
  {
    PrefixIff(core);
    if "0x" <= Lower(core) {
      assert Lower(core)[2..] == Lower(core[2..]);
      LowerReads(core[2..]);
      PyIntIff(core[2..], n);
    } else {
      PlainCore(core, n);
    }
  }

  lemma PrefixIff(core: string)
    ensures "0x" <= Lower(core) <==> |core| >= 2 && core[0] == '0' && (core[1] == 'x' || core[1] == 'X')
  {
    if |core| >= 2 {
      LowerOf(core[0]);
      LowerOf(core[1]);
      assert "0x" <= Lower(core) <==> Lower(core)[..2] == "0x";
      assert Lower(core)[..2] == [LowerChar(core[0]), LowerChar(core[1])];
    }
  }

  lemma PlainCore(core: string, n: int)
    requires core != [] && !("0x" <= Lower(core))
    requires !(|core| >= 2 && core[0] == '0' && (core[1] == 'x' || core[1] == 'X'))
    ensures Core(core, n) <==> UidNumber(Lower(core)) == Some(n)
  {
    HexDigitsAre(core);
    SameClasses(core);
    if DecimalDigits(core) {
      LowerIsPlain(core);
      DecimalsHaveValue(core);
      DecimalIsRead(core);
    } else if AllDigits(core, 16) {
      LowerKeepsValue(core, 16);
      PlainDigitsRead(Lower(core), 16);
    }
  }

  lemma SameClasses(core: string)
    ensures AllDigits(Lower(core), 16) <==> AllDigits(core, 16)
    ensures DecimalDigits(Lower(core)) <==> DecimalDigits(core)
  {
    forall i | 0 <= i < |core|
      ensures (IsDigit(Lower(core)[i], 16) <==> IsDigit(core[i], 16)) && ('0' <= Lower(core)[i] <= '9' <==> '0' <= core[i] <= '9')
    {
      LowerOf(core[i]);
    }
    assert forall i :: 0 <= i < |core| ==> core[i] in core && Lower(core)[i] in Lower(core);
  }

  lemma DecimalsHaveValue(s: string)
    requires DecimalDigits(s)
    ensures Parse(s, 10).Some?
  {
    ParseTotal(s, 10);
    forall c | c in s ensures IsDigit(c, 10) { HexDigitIs(c); }
  }

  // ----- node GUIDs --------------------------------------------------------------------------------

  ghost predicate Four(s: string) { |s| == 4 && HexDigits(s) }

  /** Four groups of four digits with colons between them, and the number they show. */
  ghost predicate GuidForm(g: string, w: string, x: string, y: string, z: string, n: nat) {
    Four(w) && Four(x) && Four(y) && Four(z) && g == w + ":" + x + ":" + y + ":" + z && Parse(w + x + y + z, 16) == Some(n)
  }

  ghost predicate ShowsNumber(s: string, n: nat) {
    exists a, g, b :: Blanks(a) && Blanks(b) && s == a + g + b && exists w, x, y, z :: GuidForm(g, w, x, y, z, n)
  }

  /** A GUID is taken exactly in this form, and leads to the UID with its bytes the other way round. */
  lemma GuidIff(s: string, t: string)
    ensures ControllerUidFromNodeGuid(s) == Some(t) <==> exists n: nat :: ShowsNumber(s, n) && t == Hex16(ByteSwap(n))
  {
    var a, b := StripIs(s);
    if ControllerUidFromNodeGuid(s) == Some(t) {
      var n := GuidIsForm(Strip(s));
      assert ShowsNumber(s, n);
    }
    if n: nat :| ShowsNumber(s, n) && t == Hex16(ByteSwap(n)) {
      var c, g, d :| Blanks(c) && Blanks(d) && s == c + g + d && exists w, x, y, z :: GuidForm(g, w, x, y, z, n);
      FormIsGuid(g, n);
      StripFinds(c, g, d);
    }
  }

  lemma FourIs(s: string)
    ensures Four(s) <==> |s| == 4 && AllDigits(s, 16)
  {
    HexDigitsAre(s);
  }

  lemma GuidIsForm(g: string) returns (n: nat)
    requires IsGuid(g)
    ensures exists w, x, y, z :: GuidForm(g, w, x, y, z, n)
    ensures FromHex(g[..4] + g[5..9] + g[10..14] + g[15..]).Some?
    ensures NumberOf(Reversed(FromHex(g[..4] + g[5..9] + g[10..14] + g[15..]).value)) == ByteSwap(n)
  {
    var w, x, y, z := g[..4], g[5..9], g[10..14], g[15..];
    assert g == w + ":" + x + ":" + y + ":" + z;
    Quarters(w, x, y, z);
    n := HexNumber(w + x + y + z);
    assert GuidForm(g, w, x, y, z, n);
  }

  /** The digits of four groups are those of each. */
  lemma Quarters(w: string, x: string, y: string, z: string)
    requires |w| == |x| == |y| == |z| == 4
    ensures AllDigits(w + x + y + z, 16) <==> Four(w) && Four(x) && Four(y) && Four(z)
  {
    FourIs(w);
    FourIs(x);
    FourIs(y);
    FourIs(z);
    assert forall c :: c in w + x + y + z <==> c in w || c in x || c in y || c in z;
  }

  lemma FormIsGuid(g: string, n: nat)
    requires exists w, x, y, z :: GuidForm(g, w, x, y, z, n)
    ensures IsGuid(g) && Trimmed(g)
    ensures FromHex(g[..4] + g[5..9] + g[10..14] + g[15..]).Some?
    ensures NumberOf(Reversed(FromHex(g[..4] + g[5..9] + g[10..14] + g[15..]).value)) == ByteSwap(n)
  {
    var w, x, y, z :| GuidForm(g, w, x, y, z, n);
    Quarters(w, x, y, z);
    var h := w + x + y + z;
    assert h[..4] == w && h[4..8] == x && h[8..12] == y && h[12..] == z;
    GuidParts(h, g);
    var m := HexNumber(h);
    assert IsDigit(h[0], 16) && IsDigit(h[15], 16);
    SpaceIs(g[0]);
    SpaceIs(g[18]);
  }

  lemma HexNumber(h: string) returns (n: nat)
    requires |h| == 16 && AllDigits(h, 16)
    ensures Parse(h, 16) == Some(n) && FromHex(h).Some? && NumberOf(Reversed(FromHex(h).value)) == ByteSwap(n)
  {
    FromHexIs(h);
    n := Parse(h, 16).value;
    BytesRoundTrip(FromHex(h).value);
  }

  lemma {:induction false} FromHexIs(h: string)
    requires |h| % 2 == 0 && AllDigits(h, 16)
    ensures FromHex(h).Some? && 2 * |FromHex(h).value| == |h|
    ensures h != [] ==> Parse(h, 16) == Some(NumberOf(FromHex(h).value))
  {
    if h != [] {
      var n := |h| - 2;
      var front, hi, lo := h[..n], h[n], h[n + 1];
      assert h == front + [hi, lo] && hi in h && lo in h && forall c :: c in front ==> c in h;
      FromHexIs(front);
      var b := OneMoreByte(front, FromHex(front).value, hi, lo);
    }
  }

  lemma OneMoreByte(front: string, bytes: seq<Byte>, hi: char, lo: char) returns (b: Byte)
    requires IsDigit(hi, 16) && IsDigit(lo, 16) && FromHex(front) == Some(bytes)
    requires if front == [] then bytes == [] else Parse(front, 16) == Some(NumberOf(bytes))
    ensures FromHex(front + [hi, lo]) == Some(bytes + [b]) && Parse(front + [hi, lo], 16) == Some(NumberOf(bytes + [b]))
  {
    var high, low := DigitValue(hi).value, DigitValue(lo).value;
    b := high * 16 + low;
    FromHexStep(front, bytes, hi, lo, high, low);
    TwoDigits(front, hi, lo);
    NumberSnoc(bytes, b);
  }

  lemma NumberSnoc(bytes: seq<Byte>, b: Byte)
    ensures NumberOf(bytes + [b]) == NumberOf(bytes) * 256 + b
  {
    assert (bytes + [b])[..|bytes|] == bytes;
  }

  lemma TwoDigits(front: string, hi: char, lo: char)
    requires IsDigit(hi, 16) && IsDigit(lo, 16) && (front == [] || Parse(front, 16).Some?)
    ensures Parse(front + [hi, lo], 16) ==
            Some((if front == [] then 0 else Parse(front, 16).value) * 256 + (DigitValue(hi).value * 16 + DigitValue(lo).value))
  {
    ParseSnoc(front, hi);
    ParseSnoc(front + [hi], lo);
    assert front + [hi, lo] == front + [hi] + [lo];
  }

  lemma ParseSnoc(front: string, c: char)
    requires IsDigit(c, 16) && (front == [] || Parse(front, 16).Some?)
    ensures Parse(front + [c], 16) == Some((if front == [] then 0 else Parse(front, 16).value) * 16 + DigitValue(c).value)
  {
    assert (front + [c])[..|front|] == front;
  }

  /** The byte in place `i` from the low end. */
  ghost function ByteAt(n: nat, i: nat): nat { if i == 0 then n % 256 else ByteAt(n / 256, i - 1) }

  lemma {:induction false} BytesAt(n: nat, k: nat, i: nat)
    requires i < k
    ensures BytesOf(n, k)[k - 1 - i] == ByteAt(n, i)
  {
    if i > 0 {
      BytesAt(n / 256, k - 1, i - 1);
    }
  }

  /** The bytes of a swapped value are those of the value from the other end. */
  lemma ByteSwapReverses(n: nat, i: nat)
    requires i < 8
    ensures ByteAt(ByteSwap(n), i) == ByteAt(n, 7 - i)
  {
    BytesRoundTrip(Reversed(BytesOf(n, 8)));
    BytesAt(ByteSwap(n), 8, i);
    BytesAt(n, 8, 7 - i);
  }
}
