/** String operations the Python sources rely on (str.split, str.join,
    str.startswith, str.replace, str.isnumeric, int(), str(), sorted), written
    out on seq<char> with the facts the rest of the model needs about them. */
module Text {

  // ---------------------------------------------------------------------
  // Prefixes, suffixes and substrings

  predicate StartsWith(s: string, p: string) {
    |p| <= |s| && s[..|p|] == p
  }

  predicate EndsWith(s: string, p: string) {
    |p| <= |s| && s[|s| - |p|..] == p
  }

  /** Python's `sub in s`. */
  predicate Contains(s: string, sub: string)
    decreases |s|
  {
    StartsWith(s, sub) || (|s| > 0 && Contains(s[1..], sub))
  }

  lemma {:induction false} ContainsAt(s: string, sub: string, i: nat)
    requires i + |sub| <= |s| && s[i..i + |sub|] == sub
    ensures Contains(s, sub)
    decreases i
  {
    if i > 0 {
      assert s[1..][i - 1..i - 1 + |sub|] == s[i..i + |sub|];
      ContainsAt(s[1..], sub, i - 1);
    }
  }

  lemma {:induction false} ContainsPrefix(s: string, t: string, sub: string)
    requires Contains(s, sub)
    ensures Contains(s + t, sub)
    decreases |s|
  {
    if StartsWith(s, sub) {
      assert (s + t)[..|sub|] == s[..|sub|];
    } else {
      assert (s + t)[1..] == s[1..] + t;
      ContainsPrefix(s[1..], t, sub);
    }
  }

  /** A one-character needle is contained exactly when the character occurs. */
  lemma {:induction false} ContainsChar(s: string, c: char)
    ensures Contains(s, [c]) <==> c in s
    decreases |s|
  {
    if |s| > 0 {
      ContainsChar(s[1..], c);
      assert s == [s[0]] + s[1..];
    }
  }

  // ---------------------------------------------------------------------
  // Searching for one character

  function IndexOf(s: string, c: char): (i: nat)
    requires c in s
    ensures i < |s| && s[i] == c && c !in s[..i]
  {
    if s[0] == c then 0 else 1 + IndexOf(s[1..], c)
  }

  function LastIndexOf(s: string, c: char): (i: nat)
    requires c in s
    ensures i < |s| && s[i] == c && c !in s[i + 1..]
  {
    if s[|s| - 1] == c then |s| - 1
    else
      assert c in s[..|s| - 1] by {
        var k :| 0 <= k < |s| && s[k] == c;
        assert s[..|s| - 1][k] == c;
      }
      LastIndexOf(s[..|s| - 1], c)
  }

  // ---------------------------------------------------------------------
  // Python's sep.join(parts) and s.split(sep) for a one-character separator

  function Join(parts: seq<string>, sep: string): string {
    if |parts| == 0 then ""
    else if |parts| == 1 then parts[0]
    else parts[0] + sep + Join(parts[1..], sep)
  }

  /** `s.split(c)`: the pieces between occurrences of c; never empty. */
  function Split(s: string, c: char): (parts: seq<string>)
    ensures |parts| >= 1
    ensures forall k :: 0 <= k < |parts| ==> c !in parts[k]
    ensures Join(parts, [c]) == s
    decreases |s|
  {
    if c !in s then [s]
    else
      var i := IndexOf(s, c);
      var rest := Split(s[i + 1..], c);
      assert s == s[..i] + [c] + s[i + 1..];
      [s[..i]] + rest
  }

  /** The number of occurrences of c in s. */
  function Count(s: string, c: char): nat {
    if s == [] then 0 else (if s[0] == c then 1 else 0) + Count(s[1..], c)
  }

  lemma {:induction false} CountZero(s: string, c: char)
    ensures Count(s, c) == 0 <==> c !in s
  {
    if s != [] {
      CountZero(s[1..], c);
      assert s == [s[0]] + s[1..];
    }
  }

  lemma {:induction false} CountAppend(a: string, b: string, c: char)
    ensures Count(a + b, c) == Count(a, c) + Count(b, c)
  {
    if a == [] {
      assert a + b == b;
    } else {
      assert (a + b)[0] == a[0];
      assert (a + b)[1..] == a[1..] + b;
      CountAppend(a[1..], b, c);
    }
  }

  /** split produces one more piece than there are separators. */
  lemma {:induction false} SplitCount(s: string, c: char)
    ensures |Split(s, c)| == Count(s, c) + 1
    decreases |s|
  {
    if c !in s {
      CountZero(s, c);
    } else {
      var i := IndexOf(s, c);
      SplitCount(s[i + 1..], c);
      assert s == s[..i] + [c] + s[i + 1..];
      CountAppend(s[..i] + [c], s[i + 1..], c);
      CountAppend(s[..i], [c], c);
      CountZero(s[..i], c);
    }
  }

  /** Splitting the join of separator-free pieces gives the pieces back. */
  lemma {:induction false} SplitJoin(parts: seq<string>, c: char)
    requires |parts| >= 1
    requires forall k :: 0 <= k < |parts| ==> c !in parts[k]
    ensures Split(Join(parts, [c]), c) == parts
    decreases |parts|
  {
    if |parts| == 1 {
    } else {
      var s := Join(parts, [c]);
      assert s == parts[0] + [c] + Join(parts[1..], [c]);
      var i := IndexOf(s, c);
      assert s[|parts[0]|] == c;
      assert s[..|parts[0]|] == parts[0];
      assert i == |parts[0]|;
      assert s[i + 1..] == Join(parts[1..], [c]);
      SplitJoin(parts[1..], c);
      assert s[..i] == parts[0];
    }
  }

  /** The join of four pieces, written out. */
  lemma Join4(a: string, b: string, c: string, d: string, sep: string)
    ensures Join([a, b, c, d], sep) == a + sep + b + sep + c + sep + d
  {
    var parts := [a, b, c, d];
    assert parts[1..] == [b, c, d] && parts[1..][1..] == [c, d] && parts[1..][1..][1..] == [d];
    assert Join([c, d], sep) == c + sep + d;
    assert Join([b, c, d], sep) == b + sep + (c + sep + d);
  }

  /** `s.split(c, 1)` when c occurs: the text before and after the first c. */
  function SplitFirst(s: string, c: char): (r: (string, string))
    requires c in s
    ensures s == r.0 + [c] + r.1 && c !in r.0
  {
    var i := IndexOf(s, c);
    assert s == s[..i] + [c] + s[i + 1..];
    (s[..i], s[i + 1..])
  }

  /** Splitting at the first c recovers a c-free head and the rest. */
  lemma SplitFirstJoin(a: string, c: char, b: string)
    requires c !in a
    ensures SplitFirst(a + [c] + b, c) == (a, b)
  {
    var s := a + [c] + b;
    assert s[|a|] == c && s[..|a|] == a;
    var i := IndexOf(s, c);
    assert i == |a|;
    assert s[i + 1..] == b;
  }

  /** `s.rsplit(c, 1)` when c occurs: the text before and after the last c. */
  function SplitLast(s: string, c: char): (r: (string, string))
    requires c in s
    ensures s == r.0 + [c] + r.1 && c !in r.1
  {
    var i := LastIndexOf(s, c);
    assert s == s[..i] + [c] + s[i + 1..];
    (s[..i], s[i + 1..])
  }

  /** Splitting at the last c recovers the head and a c-free tail. */
  lemma SplitLastJoin(a: string, c: char, b: string)
    requires c !in b
    ensures SplitLast(a + [c] + b, c) == (a, b)
  {
    var s := a + [c] + b;
    assert s[|a|] == c && s[..|a|] == a && s[|a| + 1..] == b;
    var i := LastIndexOf(s, c);
    assert forall k :: i < k < |s| ==> s[k] != c by {
      forall k | i < k < |s| ensures s[k] != c {
        assert s[k] == s[i + 1..][k - i - 1];
      }
    }
    assert forall k :: |a| < k < |s| ==> s[k] != c by {
      forall k | |a| < k < |s| ensures s[k] != c {
        assert s[k] == b[k - |a| - 1];
      }
    }
    assert i == |a|;
  }

  /** A character absent from the pieces and the separator is absent from
      their join. */
  lemma {:induction false} JoinExcludes(parts: seq<string>, sep: string, c: char)
    requires c !in sep && forall k :: 0 <= k < |parts| ==> c !in parts[k]
    ensures c !in Join(parts, sep)
  {
    if |parts| > 1 {
      JoinExcludes(parts[1..], sep, c);
    }
  }

  // ---------------------------------------------------------------------
  // Decimal numbers: str.isnumeric() (ASCII digits), int() and str()

  predicate IsDigit(c: char) {
    '0' <= c <= '9'
  }

  /** Python's `s.isnumeric()` restricted to ASCII: non-empty, all digits. */
  predicate IsNumeric(s: string) {
    |s| > 0 && forall k :: 0 <= k < |s| ==> IsDigit(s[k])
  }

  function DigitValue(c: char): nat
    requires IsDigit(c)
  {
    (c as int - '0' as int) as nat
  }

  function DigitChar(d: nat): (c: char)
    requires d < 10
    ensures IsDigit(c) && DigitValue(c) == d
  {
    ('0' as int + d) as char
  }

  /** `int(s)` for a string of decimal digits. */
  function ParseNat(s: string): nat
    requires forall k :: 0 <= k < |s| ==> IsDigit(s[k])
  {
    if s == [] then 0 else ParseNat(s[..|s| - 1]) * 10 + DigitValue(s[|s| - 1])
  }

  /** A character `int()` skips around a numeral: ASCII space and `\t`
      to `\r`, and the non-ASCII characters Python counts as whitespace.
      The ASCII separators U+001C to U+001F, although `str.isspace` holds
      for them, are not skipped. */
  predicate IsPySpace(c: char) {
    c == ' ' || '\t' <= c <= '\r' || c == '\U{85}' || c == '\U{A0}'
    || c == '\U{1680}' || '\U{2000}' <= c <= '\U{200A}' || c == '\U{2028}' || c == '\U{2029}' || c == '\U{202F}'
    || c == '\U{205F}' || c == '\U{3000}'
  }

  /** Whether the text neither starts nor ends with whitespace. */
  predicate Stripped(s: string) {
    s == [] || (!IsPySpace(s[0]) && !IsPySpace(s[|s| - 1]))
  }

  /** The text after its leading whitespace. */
  function StripLeft(s: string): (t: string)
    ensures |t| <= |s| && t == s[|s| - |t|..]
    ensures t == [] || !IsPySpace(t[0])
    ensures s != [] && !IsPySpace(s[0]) ==> t == s
    decreases |s|
  {
    if s != [] && IsPySpace(s[0]) then StripLeft(s[1..]) else s
  }

  /** The text before its trailing whitespace. */
  function StripRight(s: string): (t: string)
    ensures |t| <= |s| && t == s[..|t|]
    ensures t == [] || !IsPySpace(t[|t| - 1])
    ensures s != [] && !IsPySpace(s[|s| - 1]) ==> t == s
    decreases |s|
  {
    if s != [] && IsPySpace(s[|s| - 1]) then StripRight(s[..|s| - 1]) else s
  }

  /** `s.strip()`: the text without its leading and trailing whitespace. */
  function StripSpace(s: string): (t: string)
    ensures Stripped(t)
    ensures Stripped(s) ==> t == s
  {
    var l := StripLeft(s);
    var t := StripRight(l);
    assert t != [] ==> t[0] == l[0];
    t
  }

  /** Decimal digits that single underscores may separate, as `int()`
      accepts them: a digit first, and a digit after every underscore. */
  predicate Underscored(s: string) {
    && s != [] && IsDigit(s[0])
    && (forall k :: 0 <= k < |s| ==> IsDigit(s[k]) || s[k] == '_')
    && (forall k :: 0 <= k < |s| && s[k] == '_' ==> k + 1 < |s| && IsDigit(s[k + 1]))
  }

  /** The digits of the text, its underscores dropped. */
  function DropUnderscores(s: string): (d: string)
    requires forall k :: 0 <= k < |s| ==> IsDigit(s[k]) || s[k] == '_'
    ensures forall k :: 0 <= k < |d| ==> IsDigit(d[k])
    ensures (forall k :: 0 <= k < |s| ==> s[k] != '_') ==> d == s
    decreases |s|
  {
    if s == [] then []
    else (if s[0] == '_' then [] else [s[0]]) + DropUnderscores(s[1..])
  }

  /** Dropping underscores works piece by piece. */
  lemma {:induction false} DropUnderscoresAppend(x: string, y: string)
    requires forall k :: 0 <= k < |x| ==> IsDigit(x[k]) || x[k] == '_'
    requires forall k :: 0 <= k < |y| ==> IsDigit(y[k]) || y[k] == '_'
    ensures DropUnderscores(x + y) == DropUnderscores(x) + DropUnderscores(y)
    decreases |x|
  {
    if x == [] {
      assert x + y == y;
    } else {
      assert (x + y)[0] == x[0] && (x + y)[1..] == x[1..] + y;
      DropUnderscoresAppend(x[1..], y);
    }
  }

  /** Two numerals joined by one underscore are digits with a separator,
      and dropping it joins the numerals. */
  lemma JoinedUnderscored(a: string, b: string)
    requires IsNumeric(a) && IsNumeric(b)
    ensures var s := a + "_" + b;
            Underscored(s) && DropUnderscores(s) == a + b && Stripped(s)
  {
    JoinedSeparated(a, b);
    JoinedDigits(a, b);
    NumericUnderscored(a);
    NumericUnderscored(b);
    assert Stripped(a + "_" + b) by {
      assert (a + "_" + b)[0] == a[0];
      assert (a + "_" + b)[|a + "_" + b| - 1] == b[|b| - 1];
    }
  }

  /** Every underscore of `a + "_" + b` is followed by a digit. */
  lemma JoinedSeparated(a: string, b: string)
    requires IsNumeric(a) && IsNumeric(b)
    ensures var s := a + "_" + b;
            Underscored(s)
  {
    var s := a + "_" + b;
    assert s[0] == a[0];
    forall k | 0 <= k < |s|
      ensures IsDigit(s[k]) || (k == |a| && s[k] == '_')
    {
      if k < |a| { assert s[k] == a[k]; }
      else if k > |a| { assert s[k] == b[k - |a| - 1]; }
    }
    forall k | 0 <= k < |s| && s[k] == '_'
      ensures k + 1 < |s| && IsDigit(s[k + 1])
    {
      assert k == |a|;
      assert s[k + 1] == b[0];
    }
  }

  /** Dropping the underscore of `a + "_" + b` leaves `a + b`. */
  lemma JoinedDigits(a: string, b: string)
    requires IsNumeric(a) && IsNumeric(b)
    ensures var s := a + "_" + b;
            (forall k :: 0 <= k < |s| ==> IsDigit(s[k]) || s[k] == '_')
            && DropUnderscores(s) == a + b
  {
    JoinedSeparated(a, b);
    DropUnderscoresAppend(a + "_", b);
    DropUnderscoresAppend(a, "_");
    assert DropUnderscores("_") == [];
  }

  /** A numeral without separators is accepted as it is. */
  lemma NumericUnderscored(s: string)
    ensures IsNumeric(s) ==> Underscored(s) && DropUnderscores(s) == s && Stripped(s)
  {
    if IsNumeric(s) {
      assert IsDigit(s[0]) && IsDigit(s[|s| - 1]);
    }
  }

  /** Stripping a text padded with whitespace gives the text back. */
  lemma StripAround(s: string, pre: string, post: string)
    requires Stripped(s)
    requires forall k :: 0 <= k < |pre| ==> IsPySpace(pre[k])
    requires forall k :: 0 <= k < |post| ==> IsPySpace(post[k])
    ensures StripSpace(pre + s + post) == s
  {
    var u := pre + s + post;
    assert u == pre + (s + post);
    StripLeftSpaces(pre, s + post);
    assert StripSpace(u) == StripRight(StripLeft(s + post));
    if s == [] {
      assert s + post == post + [];
      StripLeftSpaces(post, []);
    } else {
      StripLeftWord(s, post);
      StripRightSpaces(s, post);
    }
  }

  /** A text that starts without whitespace keeps its start. */
  lemma StripLeftWord(s: string, post: string)
    requires s != [] && !IsPySpace(s[0])
    ensures StripLeft(s + post) == s + post
  {
    assert (s + post)[0] == s[0];
  }

  /** Leading whitespace is dropped. */
  lemma {:induction false} StripLeftSpaces(pre: string, s: string)
    requires forall k :: 0 <= k < |pre| ==> IsPySpace(pre[k])
    ensures StripLeft(pre + s) == StripLeft(s)
    decreases |pre|
  {
    if pre != [] {
      assert (pre + s)[0] == pre[0] && (pre + s)[1..] == pre[1..] + s;
      StripLeftSpaces(pre[1..], s);
    } else {
      assert pre + s == s;
    }
  }

  /** Trailing whitespace after a text that ends without it is dropped. */
  lemma {:induction false} StripRightSpaces(s: string, post: string)
    requires s != [] && !IsPySpace(s[|s| - 1])
    requires forall k :: 0 <= k < |post| ==> IsPySpace(post[k])
    ensures StripRight(s + post) == s
    decreases |post|
  {
    if post != [] {
      var u := s + post;
      assert IsPySpace(u[|u| - 1]) && u[..|u| - 1] == s + post[..|post| - 1];
      StripRightSpaces(s, post[..|post| - 1]);
    } else {
      assert s + post == s;
    }
  }

  /** `str(n)` for a natural number. */
  function NatToString(n: nat): (s: string)
    ensures IsNumeric(s)
  {
    if n < 10 then [DigitChar(n)] else NatToString(n / 10) + [DigitChar(n % 10)]
  }

  /** `str(i)` for an integer. */
  function IntToString(i: int): string {
    if i < 0 then "-" + NatToString(-i) else NatToString(i)
  }

  lemma {:induction false} ParseNatToString(n: nat)
    ensures ParseNat(NatToString(n)) == n
  {
    if n >= 10 {
      var s := NatToString(n);
      assert s[..|s| - 1] == NatToString(n / 10);
      ParseNatToString(n / 10);
    }
  }

  // ---------------------------------------------------------------------
  // Python's s.replace(old, new), including the empty-needle case

  function ReplaceAll(s: string, pat: string, rep: string): string
    decreases |s|
  {
    if pat == [] then
      rep + (if s == [] then [] else [s[0]] + ReplaceAll(s[1..], pat, rep))
    else if StartsWith(s, pat) then
      rep + ReplaceAll(s[|pat|..], pat, rep)
    else if s == [] then []
    else [s[0]] + ReplaceAll(s[1..], pat, rep)
  }

  /** A needle that does not occur leaves the text unchanged. */
  lemma {:induction false} ReplaceAbsent(s: string, pat: string, rep: string)
    requires pat != [] && !Contains(s, pat)
    ensures ReplaceAll(s, pat, rep) == s
    decreases |s|
  {
    if s != [] {
      ReplaceAbsent(s[1..], pat, rep);
    }
  }

  /** Every occurrence of the character c replaced by d. */
  function MapChar(s: string, c: char, d: char): (r: string)
    ensures |r| == |s|
    ensures forall i :: 0 <= i < |s| ==> r[i] == if s[i] == c then d else s[i]
  {
    seq(|s|, i requires 0 <= i < |s| => if s[i] == c then d else s[i])
  }

  /** Replacing a one-character needle is a character-by-character map. */
  lemma {:induction false} ReplaceChar(s: string, c: char, d: char)
    ensures ReplaceAll(s, [c], [d]) == MapChar(s, c, d)
    decreases |s|
  {
    if s != [] {
      ReplaceChar(s[1..], c, d);
      if StartsWith(s, [c]) {
        assert s[|[c]|..] == s[1..];
      }
      assert MapChar(s, c, d) == [if s[0] == c then d else s[0]] + MapChar(s[1..], c, d);
    }
  }

  /** An empty needle puts `rep` before, between and after every character. */
  lemma {:induction false} ReplaceEmptyLength(s: string, rep: string)
    ensures |ReplaceAll(s, [], rep)| == |s| + (|s| + 1) * |rep|
    decreases |s|
  {
    if s != [] {
      ReplaceEmptyLength(s[1..], rep);
    }
  }

  // ---------------------------------------------------------------------
  // Code-point order on strings and Python's sorted()

  predicate LessEq(a: string, b: string)
    decreases |a|
  {
    a == [] || (b != [] && (a[0] < b[0] || (a[0] == b[0] && LessEq(a[1..], b[1..]))))
  }

  lemma {:induction false} LessEqTotal(a: string, b: string)
    ensures LessEq(a, b) || LessEq(b, a)
    decreases |a|
  {
    if a != [] && b != [] && a[0] == b[0] {
      LessEqTotal(a[1..], b[1..]);
    }
  }

  lemma {:induction false} LessEqTrans(a: string, b: string, c: string)
    requires LessEq(a, b) && LessEq(b, c)
    ensures LessEq(a, c)
    decreases |a|
  {
    if a != [] && b != [] && c != [] && a[0] == b[0] == c[0] {
      LessEqTrans(a[1..], b[1..], c[1..]);
    }
  }

  lemma {:induction false} LessEqAntisym(a: string, b: string)
    requires LessEq(a, b) && LessEq(b, a)
    ensures a == b
    decreases |a|
  {
    if a != [] && b != [] {
      LessEqAntisym(a[1..], b[1..]);
      assert a == [a[0]] + a[1..];
      assert b == [b[0]] + b[1..];
    }
  }

  predicate Sorted(s: seq<string>) {
    forall i, j :: 0 <= i < j < |s| ==> LessEq(s[i], s[j])
  }

  function Insert(x: string, s: seq<string>): (r: seq<string>)
    requires Sorted(s)
    ensures Sorted(r) && multiset(r) == multiset(s) + multiset{x}
  {
    if s == [] then [x]
    else if LessEq(x, s[0]) then
      assert forall j :: 0 <= j < |s| ==> LessEq(x, s[j]) by {
        forall j | 0 <= j < |s| ensures LessEq(x, s[j]) {
          if j > 0 { LessEqTrans(x, s[0], s[j]); }
        }
      }
      [x] + s
    else
      LessEqTotal(x, s[0]);
      var t := Insert(x, s[1..]);
      assert s == [s[0]] + s[1..];
      HeadBelow(x, s, t);
      [s[0]] + t
  }

  /** The head of a sorted list, when it precedes x, precedes every element
      of its tail with x added. */
  lemma HeadBelow(x: string, s: seq<string>, t: seq<string>)
    requires Sorted(s) && s != [] && LessEq(s[0], x)
    requires multiset(t) == multiset(s[1..]) + multiset{x}
    ensures forall k :: 0 <= k < |t| ==> LessEq(s[0], t[k])
  {
    forall k | 0 <= k < |t| ensures LessEq(s[0], t[k]) {
      assert t[k] in multiset(t);
      if t[k] != x {
        assert t[k] in s[1..];
        var j :| 0 <= j < |s[1..]| && s[1..][j] == t[k];
        assert s[j + 1] == t[k];
      }
    }
  }

  /** `sorted(s)` on a list of strings. */
  function Sort(s: seq<string>): (r: seq<string>)
    ensures Sorted(r) && multiset(r) == multiset(s)
  {
    if s == [] then [] else
      assert s == [s[0]] + s[1..];
      Insert(s[0], Sort(s[1..]))
  }

  // ---------------------------------------------------------------------
  // sorted() over the keys of a dictionary

  /** m is in s and precedes every element of s. */
  predicate IsLeast(s: set<string>, m: string) {
    m in s && forall y :: y in s ==> LessEq(m, y)
  }

  /** A non-empty set of strings has a least element. */
  lemma {:induction false} LeastExists(s: set<string>)
    requires s != {}
    ensures exists m :: IsLeast(s, m)
    decreases |s|
  {
    var x :| x in s;
    LessEqTotal(x, x);
    if s - {x} == {} {
      assert s == {x};
      assert IsLeast(s, x);
    } else {
      LeastExists(s - {x});
      var m :| IsLeast(s - {x}, m);
      LessEqTotal(x, m);
      if LessEq(x, m) {
        forall y | y in s ensures LessEq(x, y) {
          if y != x {
            LessEqTrans(x, m, y);
          }
        }
        assert IsLeast(s, x);
      } else {
        assert IsLeast(s, m);
      }
    }
  }

  /** The least element of a non-empty set of strings. */
  function Least(s: set<string>): (m: string)
    requires s != {}
    ensures IsLeast(s, m)
  {
    LeastExists(s);
    LeastUnique(s);
    var m :| IsLeast(s, m);
    m
  }

  /** Two least elements are the same. */
  lemma LeastUnique(s: set<string>)
    ensures forall a, b :: IsLeast(s, a) && IsLeast(s, b) ==> a == b
  {
    forall a, b | IsLeast(s, a) && IsLeast(s, b)
      ensures a == b
    {
      LessEqAntisym(a, b);
    }
  }

  /** `sorted(keys)`: the elements of a set in ascending order. */
  function SortedElems(s: set<string>): (r: seq<string>)
    ensures Sorted(r) && |r| == |s|
    ensures forall x :: x in r <==> x in s
    decreases |s|
  {
    if s == {} then []
    else
      var m := Least(s);
      var rest := SortedElems(s - {m});
      var r := [m] + rest;
      assert forall x :: x in r <==> x in s;
      assert forall j :: 0 < j < |r| ==> r[j] == rest[j - 1] && r[j] in s;
      r
  }
}
