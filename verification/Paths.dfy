/** Relative paths as text: splitting, and the check both transfer boundaries share
    (`sync_paths.validate_relpath`). */
module Paths {
  import opened Base

  /** Python's `str.split` on one separator character. */
  function Split(s: string, sep: char): (parts: seq<string>)
    ensures |parts| >= 1
  {
    if s == [] then [[]] else
      var n := |s| - 1;
      var before := Split(s[..n], sep);
      if s[n] == sep then before + [[]]
      else before[..|before| - 1] + [before[|before| - 1] + [s[n]]]
  }

  function Join(parts: seq<string>, sep: char): string
    requires |parts| >= 1
  {
    if |parts| == 1 then parts[0] else Join(parts[..|parts| - 1], sep) + [sep] + parts[|parts| - 1]
  }

  /** Splitting undoes joining for parts free of the separator. */
  lemma {:induction false} SplitJoin(parts: seq<string>, sep: char)
    requires |parts| >= 1 && forall p :: p in parts ==> sep !in p
    ensures Split(Join(parts, sep), sep) == parts
  {
    var n := |parts| - 1;
    if n == 0 {
      SplitPlain(parts[0], sep);
      assert parts == [parts[0]];
    } else {
      SplitJoin(parts[..n], sep);
      SplitOneMore(Join(parts[..n], sep), parts[n], sep);
      assert parts == parts[..n] + [parts[n]];
    }
  }

  lemma SplitOneMore(front: string, part: string, sep: char)
    requires sep !in part
    ensures Split(front + [sep] + part, sep) == Split(front, sep) + [part]
  {
    assert (front + [sep])[..|front|] == front;
    SplitAppend(front + [sep], part, sep);
    var before := Split(front, sep);
    assert (before + [[]])[..|before|] == before;
    assert [] + part == part;
  }

  lemma {:induction false} SplitPlain(s: string, sep: char)
    requires sep !in s
    ensures Split(s, sep) == [s]
  {
    if s != [] {
      SplitPlain(s[..|s| - 1], sep);
      assert s == s[..|s| - 1] + [s[|s| - 1]];
    }
  }

  /** Text free of the separator extends the last part. */
  lemma {:induction false} SplitAppend(s: string, t: string, sep: char)
    requires sep !in t
    ensures var parts := Split(s, sep);
            Split(s + t, sep) == parts[..|parts| - 1] + [parts[|parts| - 1] + t]
  {
    if t == [] {
      assert s + t == s;
      var parts := Split(s, sep);
      var last := parts[|parts| - 1];
      assert last + [] == last;
    } else {
      var n := |t| - 1;
      SplitAppend(s, t[..n], sep);
      assert (s + t)[..|s| + n] == s + t[..n];
      assert t == t[..n] + [t[n]];
      assert Split(s, sep)[|Split(s, sep)| - 1] + t[..n] + [t[n]] == Split(s, sep)[|Split(s, sep)| - 1] + t;
    }
  }

  /** Joining undoes splitting, for any text. */
  lemma {:induction false} JoinSplit(s: string, sep: char)
    ensures Join(Split(s, sep), sep) == s
    ensures forall p :: p in Split(s, sep) ==> sep !in p
  {
    if s != [] {
      var n := |s| - 1;
      JoinSplit(s[..n], sep);
      var before := Split(s[..n], sep);
      assert s == s[..n] + [s[n]];
      if s[n] == sep {
        JoinOpened(before, sep);
      } else {
        JoinLonger(before, s[n], sep);
      }
    }
  }

  lemma JoinOpened(parts: seq<string>, sep: char)
    requires parts != []
    ensures Join(parts + [[]], sep) == Join(parts, sep) + [sep]
  {
    assert (parts + [[]])[..|parts|] == parts;
  }

  lemma JoinLonger(parts: seq<string>, c: char, sep: char)
    requires parts != []
    ensures var m := |parts| - 1;
            Join(parts[..m] + [parts[m] + [c]], sep) == Join(parts, sep) + [c]
  {
    var m := |parts| - 1;
    assert (parts[..m] + [parts[m] + [c]])[..m] == parts[..m];
  }

  // ----- what may cross a transfer boundary ---------------------------------------------

  predicate ControlChar(c: char) {
    c < ' ' || c == '\U{7F}'
  }

  /** The control characters that are refused, by their code points. */
  lemma ControlCharIs(c: char)
    ensures ControlChar(c) <==> c as int < 32 || c as int == 127
  {}

  predicate ValidComponent(part: string) {
    part != "" && part != "." && part != ".." && '/' !in part && forall c :: c in part ==> !ControlChar(c)
  }

  /** `validate_relpath`, check by check. */
  predicate ValidRelpath(rel: Rel) {
    && rel != ""
    && rel[0] != '/'
    && (forall part :: part in Split(rel, '/') ==> part != "" && part != "." && part != "..")
    && (forall c :: c in rel ==> !ControlChar(c))
  }

  /** The re-stat scripts skip paths that climb. */
  predicate HasDotDot(rel: Rel) {
    ".." in Split(rel, '/')
  }

  /** The accepted paths are exactly the non-empty sequences of proper names, joined. */
  lemma ValidRelpathIff(parts: seq<string>)
    requires |parts| >= 1 && forall p :: p in parts ==> '/' !in p
    ensures ValidRelpath(Join(parts, '/')) <==> forall p :: p in parts ==> ValidComponent(p)
  {
    if forall p :: p in parts ==> ValidComponent(p) {
      ProperNamesAreAccepted(parts);
    }
    if ValidRelpath(Join(parts, '/')) {
      AcceptedNamesAreProper(parts);
    }
  }

  lemma ProperNamesAreAccepted(parts: seq<string>)
    requires |parts| >= 1 && forall p :: p in parts ==> ValidComponent(p)
    ensures ValidRelpath(Join(parts, '/'))
  {
    var rel := Join(parts, '/');
    SplitJoin(parts, '/');
    JoinChars(parts, '/');
    assert parts[0] in parts;
    forall c | c in rel ensures !ControlChar(c) {
      if c != '/' {
        var p :| p in parts && c in p;
        assert ValidComponent(p);
      }
    }
  }

  lemma AcceptedNamesAreProper(parts: seq<string>)
    requires |parts| >= 1 && forall p :: p in parts ==> '/' !in p
    requires ValidRelpath(Join(parts, '/'))
    ensures forall p :: p in parts ==> ValidComponent(p)
  {
    SplitJoin(parts, '/');
    JoinChars(parts, '/');
    forall p | p in parts ensures ValidComponent(p) {
      forall c | c in p ensures !ControlChar(c) { assert c in Join(parts, '/'); }
    }
  }

  lemma {:induction false} JoinChars(parts: seq<string>, sep: char)
    requires |parts| >= 1
    ensures forall p, c :: p in parts && c in p ==> c in Join(parts, sep)
    ensures forall c :: c in Join(parts, sep) ==> c == sep || exists p :: p in parts && c in p
    ensures parts[0] != [] ==> Join(parts, sep) != [] && Join(parts, sep)[0] == parts[0][0]
  {
    var n := |parts| - 1;
    if n > 0 {
      JoinChars(parts[..n], sep);
      assert parts == parts[..n] + [parts[n]];
      forall c | c in Join(parts[..n], sep) && c != sep ensures exists p :: p in parts && c in p {
        var p :| p in parts[..n] && c in p;
        assert p in parts;
      }
    }
  }
}
