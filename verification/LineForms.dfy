/** What the recognisers of the splice accept, in terms of how a line is put together (the regular
    expressions of `mapping/refresh_tb.py`, with ASCII words). */
module LineForms {
  import opened Base
  import opened Splice

  /** Blanks up to the end or to a comment. */
  ghost predicate Ends(t: string) {
    exists b, u :: Blanks(b) && t == b + u && (u == [] || u[0] == '#')
  }

  ghost predicate Word(s: string) {
    s != [] && forall c :: c in s ==>
      var n := c as int; 48 <= n <= 57 || 65 <= n <= 90 || 97 <= n <= 122 || n == 95
  }

  lemma {:induction false} SkipIs(s: string) returns (a: string)
    ensures Blanks(a) && s == a + SkipSpace(s)
    ensures SkipSpace(s) != [] ==> !Blanks([SkipSpace(s)[0]])
  {
    if s != [] && Space(s[0]) {
      var b := SkipIs(s[1..]);
      a := [s[0]] + b;
    } else {
      a := [];
      if s != [] { assert s[0] in [s[0]]; }
    }
  }

  lemma {:induction false} SkipFront(a: string, t: string)
    requires Blanks(a) && (t == [] || !Blanks([t[0]]))
    ensures SkipSpace(a + t) == t
  {
    if a == [] {
      assert a + t == t;
      assert t != [] ==> t[0] in [t[0]];
    } else {
      assert a[0] in a && (a + t)[1..] == a[1..] + t && forall c :: c in a[1..] ==> c in a;
      SkipFront(a[1..], t);
    }
  }

  lemma EndsIff(t: string)
    ensures EndsOrComment(t) <==> Ends(t)
  {
    var a := SkipIs(t);
    if EndsOrComment(t) {
      assert Blanks(a) && t == a + SkipSpace(t);
    }
    if b, u :| Blanks(b) && t == b + u && (u == [] || u[0] == '#') {
      if u != [] { assert !Blanks([u[0]]) by { assert u[0] in [u[0]]; } }
      SkipFront(b, u);
    }
  }

  /** A table header starts with a bracket behind blanks. */
  lemma IsTableIff(line: string)
    ensures IsTable(line) <==> exists a, t :: Blanks(a) && line == a + t && t != [] && t[0] == '['
  {
    var a := SkipIs(line);
    if b, t :| Blanks(b) && line == b + t && t != [] && t[0] == '[' {
      assert !Blanks([t[0]]) by { assert t[0] in [t[0]]; }
      SkipFront(b, t);
    }
  }

  /** A `[[nodes]]` header has nothing but blanks and a comment around it. */
  lemma IsNodesHeaderIff(line: string)
    ensures IsNodesHeader(line) <==> exists a, t :: Blanks(a) && Ends(t) && line == a + "[[nodes]]" + t
  {
    var a := SkipIs(line);
    var u := SkipSpace(line);
    if IsNodesHeader(line) {
      EndsIff(u[9..]);
      assert u == "[[nodes]]" + u[9..];
      assert line == a + "[[nodes]]" + u[9..];
    }
    if b, t :| Blanks(b) && Ends(t) && line == b + "[[nodes]]" + t {
      var v := "[[nodes]]" + t;
      assert line == b + v && v[0] == '[' && v[9..] == t;
      assert !Blanks([v[0]]) by { assert v[0] in [v[0]]; }
      SkipFront(b, v);
      EndsIff(t);
    }
  }

  lemma WordCharIs(c: char)
    ensures WordChar(c) <==> Word([c])
  {
    assert c in [c];
  }

  lemma {:induction false} WordFront(s: string)
    ensures WordLength(s) > 0 ==> Word(s[..WordLength(s)])
    ensures WordLength(s) < |s| ==> !WordChar(s[WordLength(s)])
  {
    if s != [] && WordChar(s[0]) {
      WordFront(s[1..]);
      WordCharIs(s[0]);
      assert s[0] in [s[0]];
      assert s[..WordLength(s)] == [s[0]] + s[1..][..WordLength(s[1..])];
    }
  }

  lemma {:induction false} WordRun(k: string, t: string)
    requires (forall c :: c in k ==> WordChar(c)) && (t == [] || !WordChar(t[0]))
    ensures WordLength(k + t) == |k|
  {
    if k == [] {
      assert k + t == t;
    } else {
      assert k[0] in k && (k + t)[1..] == k[1..] + t;
      WordRun(k[1..], t);
    }
  }

  /** The key of an assignment is the word before the equals sign, blanks around it. */
  lemma KeyOfIff(line: string, k: string)
    ensures KeyOf(line) == Some(k) <==> exists a, b, t :: Blanks(a) && Word(k) && Blanks(b) && line == a + k + b + "=" + t
  {
    if KeyOf(line) == Some(k) {
      var a, b, t := KeySplits(line, k);
    }
    if a, b, t :| Blanks(a) && Word(k) && Blanks(b) && line == a + k + b + "=" + t {
      KeyIsFound(a, k, b, t, line);
    }
  }

  lemma KeySplits(line: string, k: string) returns (a: string, b: string, t: string)
    requires KeyOf(line) == Some(k)
    ensures Blanks(a) && Word(k) && Blanks(b) && line == a + k + b + "=" + t
  {
    a := SkipIs(line);
    var u := SkipSpace(line);
    var n := WordLength(u);
    WordFront(u);
    b := SkipIs(u[n..]);
    var v := SkipSpace(u[n..]);
    t := v[1..];
    assert v == "=" + t;
    PutTogether(a, u, n, b, v, t);
  }

  lemma PutTogether(a: string, u: string, n: nat, b: string, v: string, t: string)
    requires n <= |u| && u[n..] == b + v && v == "=" + t
    ensures a + u == a + u[..n] + b + "=" + t
  {
    assert u == u[..n] + u[n..];
  }

  lemma KeyIsFound(a: string, k: string, b: string, t: string, line: string)
    requires Blanks(a) && Word(k) && Blanks(b) && line == a + k + b + "=" + t
    ensures KeyOf(line) == Some(k)
  {
    var v := "=" + t;
    var u := b + v;
    assert line == a + (k + u) && (k + u)[0] == k[0] && k[0] in k;
    assert !Blanks([k[0]]) by { assert k[0] in [k[0]]; }
    SkipFront(a, k + u);
    forall c | c in k ensures WordChar(c) {}
    assert u[0] == if b == [] then '=' else b[0];
    if b != [] { assert b[0] in b; }
    WordRun(k, u);
    assert (k + u)[|k|..] == u && (k + u)[..|k|] == k;
    assert v[0] == '=' && !Blanks([v[0]]) by { assert v[0] in [v[0]]; }
    SkipFront(b, v);
  }

  /** The inside of a quoted string: no quote and no lone backslash. */
  ghost predicate Quoted(raw: string) {
    raw == []
    || (raw[0] != '"' && raw[0] != '\\' && Quoted(raw[1..]))
    || (raw[0] == '\\' && |raw| >= 2 && Quoted(raw[2..]))
  }

  lemma {:induction false} ScanSplits(s: string)
    requires ScanQuoted(s).Some?
    ensures var q := ScanQuoted(s).value; Quoted(q.0) && s == q.0 + "\"" + q.1
    decreases |s|
  {
    if s[0] == '"' {
      assert s == [] + "\"" + s[1..];
    } else {
      var n := if s[0] == '\\' then 2 else 1;
      ScanSplits(s[n..]);
      PieceInFront(s, n, ScanQuoted(s[n..]).value.0, ScanQuoted(s[n..]).value.1);
    }
  }

  lemma PieceInFront(s: string, n: nat, raw: string, rest: string)
    requires n <= |s| && s[n..] == raw + "\"" + rest
    ensures s == s[..n] + raw + "\"" + rest && (s[..n] + raw)[n..] == raw
  {
    assert s == s[..n] + s[n..];
  }

  lemma {:induction false} ScanFinds(raw: string, rest: string)
    requires Quoted(raw)
    ensures ScanQuoted(raw + "\"" + rest) == Some((raw, rest))
    decreases |raw|
  {
    var s := raw + "\"" + rest;
    if raw == [] {
      assert s[0] == '"' && s[1..] == rest;
    } else {
      var n := if raw[0] == '\\' then 2 else 1;
      assert s[0] == raw[0] && s[n..] == raw[n..] + "\"" + rest && s[..n] == raw[..n] && raw == raw[..n] + raw[n..];
      ScanFinds(raw[n..], rest);
    }
  }

  /** The id line of a node: `id`, an equals sign, the quoted id, and nothing but a comment behind
      it, blanks anywhere between. */
  ghost predicate IdForm(line: string, id: string, a: string, b: string, c: string, t: string) {
    Blanks(a) && Blanks(b) && Blanks(c) && Quoted(id) && Ends(t) && line == a + "id" + b + "=" + c + "\"" + id + "\"" + t
  }

  lemma IsIdLineIff(line: string, id: string)
    ensures IsIdLine(line, id) <==> exists a, b, c, t :: IdForm(line, id, a, b, c, t)
  {
    if IsIdLine(line, id) {
      var a, b, c, t := IdSplits(line, id);
    }
    if a, b, c, t :| IdForm(line, id, a, b, c, t) {
      IdIsFound(line, id, a, b, c, t);
    }
  }

  lemma IdSplits(line: string, id: string) returns (a: string, b: string, c: string, t: string)
    requires IsIdLine(line, id)
    ensures IdForm(line, id, a, b, c, t)
  {
    a := SkipIs(line);
    var x := SkipSpace(line);
    b := SkipIs(x[2..]);
    var u := SkipSpace(x[2..]);
    c := SkipIs(u[1..]);
    var v := SkipSpace(u[1..]);
    ScanSplits(v[1..]);
    t := ScanQuoted(v[1..]).value.1;
    EndsIff(t);
    IdTogether(line, a, x, b, u, c, v, id, t);
  }

  lemma IdTogether(line: string, a: string, x: string, b: string, u: string, c: string, v: string, id: string, t: string)
    requires line == a + x && "id" <= x && x[2..] == b + u && u != [] && u[0] == '=' && u[1..] == c + v
    requires v != [] && v[0] == '"' && v[1..] == id + "\"" + t
    ensures line == a + "id" + b + "=" + c + "\"" + id + "\"" + t
  {
    assert x == "id" + x[2..] && u == "=" + u[1..] && v == "\"" + v[1..];
    assert x == "id" + (b + ("=" + (c + ("\"" + (id + "\"" + t)))));
  }

  lemma IdIsFound(line: string, id: string, a: string, b: string, c: string, t: string)
    requires IdForm(line, id, a, b, c, t)
    ensures IsIdLine(line, id)
  {
    var v := "\"" + (id + "\"" + t);
    var u := "=" + (c + v);
    var x := "id" + (b + u);
    assert line == a + x;
    FrontOf(a, x);
    assert x[2..] == b + u;
    FrontOf(b, u);
    assert u[1..] == c + v;
    FrontOf(c, v);
    assert v[1..] == id + "\"" + t;
    ScanFinds(id, t);
    EndsIff(t);
  }

  lemma FrontOf(a: string, t: string)
    requires Blanks(a) && t != [] && t[0] in "i=\""
    ensures SkipSpace(a + t) == t
  {
    assert t[0] in [t[0]];
    SkipFront(a, t);
  }

  /** The net bracket count is what it is called. */
  lemma {:induction false} NetIs(line: string)
    ensures Net(line) + multiset(line)[']'] == multiset(line)['[']
  {
    if line != [] {
      NetIs(line[1..]);
      assert line == [line[0]] + line[1..];
    }
  }
}
