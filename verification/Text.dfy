/** Strings as the keys and headers use them: decimal numbers, splitting at a
    separator, stripping white space, and when a rendered key can be read back. */
module Text {

  // ----- Decimal numbers

  function Digit(d: nat): (c: char)
    requires d < 10
    ensures '0' <= c <= '9'
  {
    '0' + d as char
  }

  /** The decimal digits of a natural number. */
  function Dec(n: nat): (s: string)
    ensures s != [] && forall i :: 0 <= i < |s| ==> '0' <= s[i] <= '9'
  {
    if n < 10 then [Digit(n)] else Dec(n / 10) + [Digit(n % 10)]
  }

  function DecInt(n: int): (s: string)
    ensures s != [] && forall i :: 0 <= i < |s| ==> s[i] == '-' || '0' <= s[i] <= '9'
  {
    if n < 0 then "-" + Dec(-n) else Dec(n)
  }

  lemma {:induction false} DecInjective(m: nat, n: nat)
    requires Dec(m) == Dec(n)
    ensures m == n
  {
    var s := Dec(m);
    assert s[|s| - 1] == Digit(m % 10) == Digit(n % 10);
    assert m % 10 == n % 10;
    if m >= 10 && n >= 10 {
      assert Dec(m / 10) == s[..|s| - 1] == Dec(n / 10);
      DecInjective(m / 10, n / 10);
    }
  }

  lemma DecIntInjective(m: int, n: int)
    requires DecInt(m) == DecInt(n)
    ensures m == n
  {
    assert m < 0 <==> DecInt(m)[0] == '-';
    assert n < 0 <==> DecInt(n)[0] == '-';
    if m < 0 {
      assert DecInt(m)[1..] == Dec(-m) && DecInt(n)[1..] == Dec(-n);
      DecInjective(-m, -n);
    } else {
      DecInjective(m, n);
    }
  }

  // ----- Joining and taking apart

  lemma PrefixCancels(p: string, a: string, b: string)
    requires p + a == p + b
    ensures a == b
  {
    assert (p + a)[|p|..] == a && (p + b)[|p|..] == b;
  }

  /** With the separator in neither left part, a joined text has one reading. */
  lemma FirstSeparator(a: string, b: string, a': string, b': string, c: char)
    requires c !in a && c !in a' && a + [c] + b == a' + [c] + b'
    ensures a == a' && b == b'
  {
    var s := a + [c] + b;
    assert s[|a|] == c && s[|a'|] == c;
    assert forall k :: 0 <= k < |a| ==> s[k] == a[k];
    assert forall k :: 0 <= k < |a'| ==> s[k] == a'[k];
    assert |a| == |a'|;
    assert a == s[..|a|] && a' == s[..|a'|] && b == s[|a| + 1..] && b' == s[|a'| + 1..];
  }

  /** The same from the right, with the separator in neither right part. */
  lemma LastSeparator(a: string, b: string, a': string, b': string, c: char)
    requires c !in b && c !in b' && a + [c] + b == a' + [c] + b'
    ensures a == a' && b == b'
  {
    var s := a + [c] + b;
    assert s == a' + [c] + b';
    assert s[|a|] == c && s[|a'|] == c;
    assert forall k :: |a| < k < |s| ==> s[k] == b[k - |a| - 1];
    assert forall k :: |a'| < k < |s| ==> s[k] == b'[k - |a'| - 1];
    assert |a| == |a'|;
    assert a == s[..|a|] && a' == s[..|a'|] && b == s[|a| + 1..] && b' == s[|a'| + 1..];
  }

  /** One more character in front of text already taken apart. */
  function Glue(h: char, pieces: seq<string>, c: char): (r: seq<string>)
    requires |pieces| >= 1
    ensures |r| >= 1
  {
    if h == c then [[]] + pieces else [[h] + pieces[0]] + pieces[1..]
  }

  /** The pieces of `s` between the separators; always at least one. */
  function Split(s: string, c: char): (r: seq<string>)
    ensures |r| >= 1
    decreases |s|
  {
    if s == [] then [[]] else Glue(s[0], Split(s[1..], c), c)
  }

  lemma GlueConcat(h: char, x: seq<string>, y: seq<string>, c: char)
    requires |x| >= 1
    ensures Glue(h, x + y, c) == Glue(h, x, c) + y
  {
  }

  /** Splitting at a separator that is written out gives both parts' pieces. */
  lemma {:induction false} SplitJoin(a: string, b: string, c: char)
    ensures Split(a + [c] + b, c) == Split(a, c) + Split(b, c)
    decreases |a|
  {
    var s := a + [c] + b;
    if a == [] {
      assert s[1..] == b;
    } else {
      SplitJoin(a[1..], b, c);
      assert s[1..] == a[1..] + [c] + b;
      GlueConcat(a[0], Split(a[1..], c), Split(b, c), c);
    }
  }

  /** The white space that `strip` removes from the ASCII range: tab to carriage return,
      the four separators, and the blank. */
  predicate IsSpace(c: char) {
    9 as char <= c <= 13 as char || 28 as char <= c <= ' '
  }

  predicate AllSpace(s: string) {
    forall i :: 0 <= i < |s| ==> IsSpace(s[i])
  }

  /** Nothing to strip. */
  predicate Bare(s: string) {
    s != "" ==> !IsSpace(s[0]) && !IsSpace(s[|s| - 1])
  }

  function StripLeft(s: string): string {
    if s != [] && IsSpace(s[0]) then StripLeft(s[1..]) else s
  }

  function StripRight(s: string): string {
    if s != [] && IsSpace(s[|s| - 1]) then StripRight(s[..|s| - 1]) else s
  }

  function Strip(s: string): string {
    StripRight(StripLeft(s))
  }

  lemma {:induction false} StripLeftSpaces(l: string, s: string)
    requires AllSpace(l)
    ensures StripLeft(l + s) == StripLeft(s)
    decreases |l|
  {
    if l == "" {
      assert l + s == s;
    } else {
      assert (l + s)[1..] == l[1..] + s;
      StripLeftSpaces(l[1..], s);
    }
  }

  lemma {:induction false} StripRightSpaces(s: string, r: string)
    requires AllSpace(r)
    ensures StripRight(s + r) == StripRight(s)
    decreases |r|
  {
    if r == "" {
      assert s + r == s;
    } else {
      assert (s + r)[..|s + r| - 1] == s + r[..|r| - 1];
      StripRightSpaces(s, r[..|r| - 1]);
    }
  }

  /** Stripping finds the text between the white space. */
  lemma StripExactly(l: string, x: string, r: string)
    requires AllSpace(l) && Bare(x) && AllSpace(r)
    ensures Strip(l + x + r) == x
  {
    assert l + x + r == l + (x + r);
    StripLeftSpaces(l, x + r);
    if x == "" {
      assert x + r == r && r + "" == r;
      StripLeftSpaces(r, "");
    } else {
      assert StripLeft(x + r) == x + r;
      StripRightSpaces(x, r);
    }
  }

  lemma {:induction false} LeftPart(s: string) returns (l: string)
    ensures s == l + StripLeft(s) && AllSpace(l) && (StripLeft(s) != "" ==> !IsSpace(StripLeft(s)[0]))
    decreases |s|
  {
    l := "";
    if s != "" && IsSpace(s[0]) {
      var m := LeftPart(s[1..]);
      l := [s[0]] + m;
    }
  }

  lemma {:induction false} RightPart(s: string) returns (r: string)
    ensures s == StripRight(s) + r && AllSpace(r) && (StripRight(s) != "" ==> !IsSpace(StripRight(s)[|StripRight(s)| - 1]))
    decreases |s|
  {
    r := "";
    if s != "" && IsSpace(s[|s| - 1]) {
      var m := RightPart(s[..|s| - 1]);
      r := m + [s[|s| - 1]];
    }
  }

  /** Every text is such a text, so stripping is determined by that. */
  lemma StripParts(s: string) returns (l: string, r: string)
    ensures s == l + Strip(s) + r && AllSpace(l) && AllSpace(r) && Bare(Strip(s))
  {
    l := LeftPart(s);
    r := RightPart(StripLeft(s));
  }

  // ----- Reading decimal numbers

  /** The number that decimal digits spell. */
  function ValueOf(s: string): int {
    if s == "" then 0 else 10 * ValueOf(s[..|s| - 1]) + (s[|s| - 1] as int - '0' as int)
  }

  /** A printed number reads back as itself, and has no leading zero. */
  lemma {:induction false} DecReads(n: nat)
    ensures ValueOf(Dec(n)) == n && (n > 0 ==> Dec(n)[0] != '0')
  {
    if n >= 10 {
      DecReads(n / 10);
      assert Dec(n)[..|Dec(n)| - 1] == Dec(n / 10);
    }
  }

  lemma DecIntReads(n: int)
    ensures n >= 0 ==> ValueOf(DecInt(n)) == n
    ensures n < 0 ==> DecInt(n)[0] == '-' && ValueOf(DecInt(n)[1..]) == -n
  {
    DecReads(if n < 0 then -n else n);
  }
}
