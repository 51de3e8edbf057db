/** The string operations the scanner and the frontend share. Whitespace and case are ASCII. */
module Text {

  predicate IsSpace(c: char) {
    c == ' ' || '\t' <= c <= '\r'
  }

  function TrimLeft(s: string): string {
    if s != [] && IsSpace(s[0]) then TrimLeft(s[1..]) else s
  }

  function TrimRight(s: string): string {
    if s != [] && IsSpace(s[|s| - 1]) then TrimRight(s[..|s| - 1]) else s
  }

  /** Python's `str.strip()` and JavaScript's `trim()`. */
  function Trim(s: string): string {
    TrimRight(TrimLeft(s))
  }

  predicate NoSpace(s: string) {
    forall i :: 0 <= i < |s| ==> !IsSpace(s[i])
  }

  /** A string that does not start or end with whitespace is its own trim. */
  lemma TrimFixed(s: string)
    requires s == [] || (!IsSpace(s[0]) && !IsSpace(s[|s| - 1]))
    ensures Trim(s) == s
  {
  }

  lemma {:induction false} TrimRightConcat(a: string, x: string)
    requires a != "" && !IsSpace(a[|a| - 1])
    ensures TrimRight(a + x) == a + TrimRight(x)
  {
    if x == [] {
      assert a + x == a;
    } else {
      var s := a + x;
      assert s[|s| - 1] == x[|x| - 1] && s[..|s| - 1] == a + x[..|x| - 1];
      if IsSpace(x[|x| - 1]) {
        TrimRightConcat(a, x[..|x| - 1]);
      }
    }
  }

  lemma {:induction false} TrimLeftConcat(x: string, a: string)
    requires a != "" && !IsSpace(a[0])
    ensures TrimLeft(x + a) == TrimLeft(x) + a
  {
    if x == [] {
      assert x + a == a;
    } else {
      assert (x + a)[1..] == x[1..] + a && (x + a)[0] == x[0];
      if IsSpace(x[0]) {
        TrimLeftConcat(x[1..], a);
      }
    }
  }

  lemma {:induction false} TrimLeftTwice(s: string)
    ensures TrimLeft(TrimLeft(s)) == TrimLeft(s)
  {
    if s != [] && IsSpace(s[0]) {
      TrimLeftTwice(s[1..]);
    }
  }

  lemma {:induction false} TrimRightTwice(s: string)
    ensures TrimRight(TrimRight(s)) == TrimRight(s)
  {
    if s != [] && IsSpace(s[|s| - 1]) {
      TrimRightTwice(s[..|s| - 1]);
    }
  }

  /** The two ends are trimmed independently. */
  lemma {:induction false} TrimEnds(s: string)
    ensures TrimLeft(TrimRight(s)) == TrimRight(TrimLeft(s))
  {
    if s != [] && IsSpace(s[|s| - 1]) {
      var front := s[..|s| - 1];
      TrimEnds(front);
      TrimLeftSnoc(front, s[|s| - 1]);
      assert s == front + [s[|s| - 1]];
    } else if s != [] {
      TrimLeftLast(s);
    }
  }

  lemma {:induction false} TrimLeftSnoc(s: string, c: char)
    requires IsSpace(c)
    ensures TrimRight(TrimLeft(s + [c])) == TrimRight(TrimLeft(s))
  {
    var t := s + [c];
    if s == [] {
      assert t[1..] == [];
    } else if IsSpace(s[0]) {
      assert t[1..] == s[1..] + [c];
      TrimLeftSnoc(s[1..], c);
    } else {
      assert t[..|t| - 1] == s;
    }
  }

  lemma {:induction false} TrimLeftLast(s: string)
    requires s != [] && !IsSpace(s[|s| - 1])
    ensures TrimLeft(s) != [] && TrimLeft(s)[|TrimLeft(s)| - 1] == s[|s| - 1]
  {
    if IsSpace(s[0]) {
      TrimLeftLast(s[1..]);
    }
  }

  function LowerChar(c: char): char {
    if 'A' <= c <= 'Z' then ((c as int) + 32) as char else c
  }

  function Lower(s: string): string {
    if s == [] then [] else [LowerChar(s[0])] + Lower(s[1..])
  }

  lemma {:induction false} LowerAt(s: string)
    ensures |Lower(s)| == |s|
    ensures forall i :: 0 <= i < |s| ==> Lower(s)[i] == LowerChar(s[i])
  {
    if s != [] {
      LowerAt(s[1..]);
    }
  }

  lemma LowerConcat(a: string, b: string)
    ensures Lower(a + b) == Lower(a) + Lower(b)
  {
    LowerAt(a);
    LowerAt(b);
    LowerAt(a + b);
  }

  lemma LowerIdempotent(s: string)
    ensures Lower(Lower(s)) == Lower(s)
  {
    LowerAt(s);
    LowerAt(Lower(s));
  }

  /** Lowercasing neither makes nor destroys a character that has no upper case. */
  lemma LowerKeepsChar(s: string, c: char)
    requires !('A' <= c <= 'Z') && !('a' <= c <= 'z')
    ensures c in Lower(s) <==> c in s
  {
    LowerAt(s);
    if c in s {
      var i :| 0 <= i < |s| && s[i] == c;
      assert Lower(s)[i] == c;
    }
  }

  // ---------------------------------------------------------------------------
  // Joining
  // ---------------------------------------------------------------------------

  function Join(sep: char, parts: seq<string>): string {
    if |parts| == 0 then ""
    else if |parts| == 1 then parts[0]
    else parts[0] + [sep] + Join(sep, parts[1..])
  }

  /** The first position of `c`, or -1 (`find`, `indexOf`). */
  function Find(s: string, c: char): (i: int)
    ensures -1 <= i < |s|
    ensures i >= 0 ==> s[i] == c
  {
    if s == [] then -1
    else if s[0] == c then 0
    else
      var i := Find(s[1..], c);
      if i < 0 then -1 else i + 1
  }

  /** The last position of `c`, or -1 (`rfind`, `lastIndexOf`). */
  function RFind(s: string, c: char): (i: int)
    ensures -1 <= i < |s|
    ensures i >= 0 ==> s[i] == c
  {
    if s == [] then -1
    else if s[|s| - 1] == c then |s| - 1
    else RFind(s[..|s| - 1], c)
  }

  lemma {:induction false} FindFirst(a: string, c: char, x: string)
    requires c !in a
    ensures Find(a + [c] + x, c) == |a|
  {
    if a != [] {
      assert (a + [c] + x)[1..] == a[1..] + [c] + x;
      FindFirst(a[1..], c, x);
    }
  }

  lemma {:induction false} RFindLast(a: string, c: char, x: string)
    requires c !in x
    ensures RFind(a + [c] + x, c) == |a|
  {
    var s := a + [c] + x;
    if x != [] {
      assert s[|s| - 1] == x[|x| - 1];
      assert s[..|s| - 1] == a + [c] + x[..|x| - 1];
      RFindLast(a, c, x[..|x| - 1]);
    }
  }

  lemma {:induction false} FindAbsent(s: string, c: char)
    ensures Find(s, c) == -1 <==> c !in s
    ensures RFind(s, c) == -1 <==> c !in s
  {
    if s != [] {
      FindAbsent(s[1..], c);
      FindAbsent(s[..|s| - 1], c);
      assert s == [s[0]] + s[1..];
      assert s == s[..|s| - 1] + [s[|s| - 1]];
    }
  }

  /** The first `sep` separates the same pieces in two equal strings. */
  lemma FirstSepUnique(sep: char, a: string, x: string, b: string, y: string)
    requires sep !in a && sep !in b
    requires a + [sep] + x == b + [sep] + y
    ensures a == b && x == y
  {
    var s, t := a + [sep] + x, b + [sep] + y;
    FindFirst(a, sep, x);
    FindFirst(b, sep, y);
    assert a == s[..|a|] && b == t[..|b|];
    assert x == s[|a| + 1..] && y == t[|b| + 1..];
  }

  /** The last `sep` separates the same pieces in two equal strings. */
  lemma LastSepUnique(sep: char, a: string, x: string, b: string, y: string)
    requires sep !in x && sep !in y
    requires a + [sep] + x == b + [sep] + y
    ensures a == b && x == y
  {
    var s, t := a + [sep] + x, b + [sep] + y;
    RFindLast(a, sep, x);
    RFindLast(b, sep, y);
    assert a == s[..|a|] && b == t[..|b|];
    assert x == s[|a| + 1..] && y == t[|b| + 1..];
  }

  ghost predicate AllFree(sep: char, parts: seq<string>) {
    forall i :: 0 <= i < |parts| ==> sep !in parts[i]
  }

  lemma {:induction false} JoinFree(c: char, sep: char, parts: seq<string>)
    requires c != sep && AllFree(c, parts)
    ensures c !in Join(sep, parts)
  {
    if |parts| > 1 {
      JoinFree(c, sep, parts[1..]);
    }
  }

  /** Joining pieces that do not contain the separator loses nothing. */
  lemma {:induction false} JoinInjective(sep: char, xs: seq<string>, ys: seq<string>)
    requires |xs| > 0 && |ys| > 0 && AllFree(sep, xs) && AllFree(sep, ys)
    requires Join(sep, xs) == Join(sep, ys)
    ensures xs == ys
  {
    assert |xs| > 1 ==> Join(sep, xs)[|xs[0]|] == sep;
    assert |ys| > 1 ==> Join(sep, ys)[|ys[0]|] == sep;
    if |xs| > 1 && |ys| > 1 {
      FirstSepUnique(sep, xs[0], Join(sep, xs[1..]), ys[0], Join(sep, ys[1..]));
      JoinInjective(sep, xs[1..], ys[1..]);
      assert xs == [xs[0]] + xs[1..] && ys == [ys[0]] + ys[1..];
    }
  }

  lemma {:induction false} JoinConcat(sep: char, xs: seq<string>, ys: seq<string>)
    requires |xs| > 0 && |ys| > 0
    ensures Join(sep, xs + ys) == Join(sep, xs) + [sep] + Join(sep, ys)
  {
    if |xs| == 1 {
      assert (xs + ys)[1..] == ys;
    } else {
      JoinConcat(sep, xs[1..], ys);
      assert (xs + ys)[1..] == xs[1..] + ys;
      assert xs[0] + [sep] + (Join(sep, xs[1..]) + [sep] + Join(sep, ys))
          == (xs[0] + [sep] + Join(sep, xs[1..])) + [sep] + Join(sep, ys);
    }
  }
}
