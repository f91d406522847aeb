/** The string operations the program takes from Go's `strings` package. */
module Text {
  function LowerChar(c: char): char {
    if 'A' <= c <= 'Z' then (c as int + 32) as char else c
  }

  /** `strings.ToLower` on ASCII. */
  function Lower(s: string): (r: string)
    ensures |r| == |s|
  {
    seq(|s|, i requires 0 <= i < |s| => LowerChar(s[i]))
  }

  /** Each capital becomes the letter 32 places on, and nothing else changes. */
  lemma LowerExactly(s: string, i: nat)
    requires i < |s|
    ensures Lower(s)[i] as int == if 65 <= s[i] as int <= 90 then s[i] as int + 32 else s[i] as int
  {
  }

  lemma LowerIdempotent(s: string)
    ensures Lower(Lower(s)) == Lower(s)
  {
  }

  predicate IsSpace(c: char) {
    c == ' ' || '\t' <= c <= '\r'
  }

  function TrimLeft(s: string): string {
    if s != [] && IsSpace(s[0]) then TrimLeft(s[1..]) else s
  }

  function TrimRight(s: string): string {
    if s != [] && IsSpace(s[|s| - 1]) then TrimRight(s[..|s| - 1]) else s
  }

  function TrimSpace(s: string): string {
    TrimRight(TrimLeft(s))
  }

  predicate Blank(s: string) { forall c :: c in s ==> c in [' ', '\t', '\n', '\r'] || c as int in {11, 12} }

  lemma {:induction false} TrimLeftExactly(s: string)
    ensures exists a :: Blank(a) && s == a + TrimLeft(s)
    ensures TrimLeft(s) != [] ==> !Blank([TrimLeft(s)[0]])
  {
    if s != [] && IsSpace(s[0]) {
      TrimLeftExactly(s[1..]);
      var a :| Blank(a) && s[1..] == a + TrimLeft(s[1..]);
      assert Blank([s[0]] + a) && s == [s[0]] + a + TrimLeft(s);
    } else {
      assert Blank("") && s == "" + TrimLeft(s);
      if s != [] { assert s[0] in [s[0]]; }
    }
  }

  lemma {:induction false} TrimRightExactly(s: string)
    ensures exists b :: Blank(b) && s == TrimRight(s) + b
    ensures TrimRight(s) != [] ==> !Blank([TrimRight(s)[|TrimRight(s)| - 1]])
  {
    if s != [] && IsSpace(s[|s| - 1]) {
      var n := |s| - 1;
      TrimRightExactly(s[..n]);
      var b :| Blank(b) && s[..n] == TrimRight(s[..n]) + b;
      assert Blank(b + [s[n]]) && s == TrimRight(s) + (b + [s[n]]);
    } else {
      assert Blank("") && s == TrimRight(s) + "";
      if s != [] { assert s[|s| - 1] in [s[|s| - 1]]; }
    }
  }

  /** Trimming takes blanks off both ends, and all of them. */
  lemma TrimSpaceExactly(s: string)
    ensures exists a, b :: Blank(a) && Blank(b) && s == a + TrimSpace(s) + b
    ensures var r := TrimSpace(s);
      r != [] ==> !Blank([r[0]]) && !Blank([r[|r| - 1]])
  {
    var l := TrimLeft(s);
    TrimLeftExactly(s);
    TrimRightExactly(l);
    hide Blank, TrimLeft, TrimRight;
    var a :| Blank(a) && s == a + l;
    var b :| Blank(b) && l == TrimRight(l) + b;
    assert s == a + TrimRight(l) + b;
  }

  /** A text with no blank at either end is its own trimming. */
  lemma TrimSpaceIdentity(s: string)
    requires s != [] && !IsSpace(s[0]) && !IsSpace(s[|s| - 1])
    ensures TrimSpace(s) == s
  {
  }

  /** `strings.TrimRight(s, "\r")`. */
  function TrimCarriageReturns(s: string): string {
    if s != [] && s[|s| - 1] == '\r' then TrimCarriageReturns(s[..|s| - 1]) else s
  }

  /** `strings.Split` on a one-character separator. */
  function Split(s: string, sep: char): (r: seq<string>)
    ensures r != []
  {
    if s == [] then [""]
    else
      var rest := Split(s[1..], sep);
      if s[0] == sep then [""] + rest else [[s[0]] + rest[0]] + rest[1..]
  }

  lemma {:induction false} SplitAtFirst(a: string, sep: char, rest: string)
    requires sep !in a
    ensures Split(a + [sep] + rest, sep) == [a] + Split(rest, sep)
  {
    var s := a + [sep] + rest;
    if a == [] {
      assert s[1..] == rest;
    } else {
      assert s[1..] == a[1..] + [sep] + rest;
      SplitAtFirst(a[1..], sep, rest);
      assert [a[0]] + a[1..] == a;
    }
  }

  lemma {:induction false} SplitWithoutSeparator(a: string, sep: char)
    requires sep !in a
    ensures Split(a, sep) == [a]
  {
    if a != [] {
      SplitWithoutSeparator(a[1..], sep);
      assert [a[0]] + a[1..] == a;
    }
  }

  /** `strings.LastIndex(s, ":")`-style search for the last occurrence of `c`. */
  function LastIndex(s: string, c: char): (i: int)
    ensures -1 <= i < |s|
    ensures i == -1 <==> c !in s
    ensures i >= 0 ==> s[i] == c && c !in s[i + 1..]
  {
    if s == [] then -1
    else if s[|s| - 1] == c then |s| - 1
    else
      assert s == s[..|s| - 1] + [s[|s| - 1]];
      var i := LastIndex(s[..|s| - 1], c);
      assert i >= 0 ==> s[i + 1..] == s[..|s| - 1][i + 1..] + [s[|s| - 1]];
      i
  }

  predicate OccursAt(s: string, sub: string, k: int) {
    0 <= k && k + |sub| <= |s| && s[k..k + |sub|] == sub
  }

  /** `strings.Index`: the first position at which `sub` occurs, or -1. */
  function Index(s: string, sub: string, from: nat := 0): (i: int)
    requires from <= |s|
    decreases |s| - from
    ensures i == -1 || (from <= i && OccursAt(s, sub, i))
    ensures forall k :: from <= k && (i == -1 || k < i) ==> !OccursAt(s, sub, k)
  {
    if OccursAt(s, sub, from) then from
    else if from == |s| then -1
    else Index(s, sub, from + 1)
  }

  predicate Contains(s: string, sub: string) {
    Index(s, sub) >= 0
  }

  lemma ContainsMeansOccurs(s: string, sub: string)
    ensures Contains(s, sub) <==> exists k :: OccursAt(s, sub, k)
  {
  }
}
