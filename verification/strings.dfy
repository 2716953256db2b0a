/** The handful of JavaScript and Python string primitives the modelled code
    leans on: `includes`, `split`, `join`, `indexOf`, `rsplit(sep, 1)`,
    `lower()`/`toUpperCase()` on ASCII, `strip()` and decimal formatting.
    Each is defined once here, together with the facts the other modules
    need about it. */
module Strings {
  import opened Base

  // ---------------------------------------------------------------------
  // Characters
  // ---------------------------------------------------------------------

  /** The character class `[A-Z]` of a JavaScript regular expression. */
  predicate IsUpper(c: char) { 'A' <= c <= 'Z' }

  predicate IsLower(c: char) { 'a' <= c <= 'z' }

  /** `toUpperCase` on one character, ASCII letters only. */
  function UpperChar(c: char): char {
    if IsLower(c) then (c as int - 32) as char else c
  }

  /** Python's `lower()` on one character, ASCII letters only. */
  function LowerChar(c: char): char {
    if IsUpper(c) then (c as int + 32) as char else c
  }

  /** Python's `str.lower()`, ASCII letters only. */
  function Lower(s: string): (r: string)
    ensures |r| == |s|
    ensures forall i :: 0 <= i < |s| ==> r[i] == LowerChar(s[i])
  {
    seq(|s|, i requires 0 <= i < |s| => LowerChar(s[i]))
  }

  /** The characters for which Python's `str.isspace()` holds; these are
      what a bare `strip()` removes. */
  predicate IsPySpace(c: char) {
    var n := c as int;
    || (9 <= n <= 13) || (28 <= n <= 32)
    || n == 0x85 || n == 0xA0 || n == 0x1680
    || (0x2000 <= n <= 0x200A)
    || n == 0x2028 || n == 0x2029 || n == 0x202F || n == 0x205F || n == 0x3000
  }

  // ---------------------------------------------------------------------
  // Substring search: JavaScript `s.includes(sub)`
  // ---------------------------------------------------------------------

  predicate StartsWith(s: string, prefix: string) {
    |prefix| <= |s| && s[..|prefix|] == prefix
  }

  /** `s.includes(sub)`, as a left-to-right scan. */
  predicate Contains(s: string, sub: string)
    decreases |s|
  {
    StartsWith(s, sub) || (|s| > 0 && Contains(s[1..], sub))
  }

  /** `sub` occurs in `s` at offset `i`. */
  predicate OccursAt(s: string, sub: string, i: int) {
    0 <= i && i + |sub| <= |s| && s[i..i + |sub|] == sub
  }

  /** The scan finds `sub` exactly when it occurs somewhere in `s`. */
  lemma {:induction false} ContainsIffOccurs(s: string, sub: string)
    ensures Contains(s, sub) <==> exists i :: OccursAt(s, sub, i)
    decreases |s|
  {
    if StartsWith(s, sub) {
      assert OccursAt(s, sub, 0);
    } else if |s| > 0 {
      ContainsIffOccurs(s[1..], sub);
      if Contains(s[1..], sub) {
        var i :| OccursAt(s[1..], sub, i);
        assert s[i + 1..i + 1 + |sub|] == s[1..][i..i + |sub|];
        assert OccursAt(s, sub, i + 1);
      }
      if exists i :: OccursAt(s, sub, i) {
        var i :| OccursAt(s, sub, i);
        if i > 0 {
          assert s[1..][i - 1..i - 1 + |sub|] == s[i..i + |sub|];
          assert OccursAt(s[1..], sub, i - 1);
        }
      }
    }
  }

  /** A string contains every one of its infixes. */
  lemma ContainsInfix(a: string, m: string, b: string)
    ensures Contains(a + m + b, m)
  {
    assert (a + m + b)[|a|..|a| + |m|] == m;
    assert OccursAt(a + m + b, m, |a|);
    ContainsIffOccurs(a + m + b, m);
  }

  // ---------------------------------------------------------------------
  // split / join
  // ---------------------------------------------------------------------

  /** JavaScript `s.split(sep)` (and Python `s.split(sep)`) for a one-character
      separator: the maximal separator-free runs, so that `""` gives `[""]`
      and a leading separator gives a leading `""`. */
  function Split(s: string, sep: char): (parts: seq<string>)
    ensures |parts| >= 1
    ensures forall i :: 0 <= i < |parts| ==> sep !in parts[i]
    decreases |s|
  {
    if |s| == 0 then [""]
    else
      var rest := Split(s[1..], sep);
      if s[0] == sep then [""] + rest
      else [[s[0]] + rest[0]] + rest[1..]
  }

  /** Python `sep.join(parts)` / JavaScript `parts.join(sep)`. */
  function Join(parts: seq<string>, sep: string): string
    decreases |parts|
  {
    if |parts| == 0 then ""
    else if |parts| == 1 then parts[0]
    else parts[0] + sep + Join(parts[1..], sep)
  }

  /** Joining the pieces of a split puts the separators back. */
  lemma {:induction false} JoinSplit(s: string, sep: char)
    ensures Join(Split(s, sep), [sep]) == s
    decreases |s|
  {
    if |s| > 0 {
      var rest := Split(s[1..], sep);
      JoinSplit(s[1..], sep);
      if s[0] == sep {
        assert ([""] + rest)[1..] == rest;
      } else if |rest| == 1 {
        assert s == [s[0]] + s[1..];
      } else {
        var parts := [[s[0]] + rest[0]] + rest[1..];
        assert parts[1..] == rest[1..];
        assert s == [s[0]] + s[1..];
      }
    }
  }

  /** A separator-free string splits into itself. */
  lemma {:induction false} SplitWithoutSeparator(a: string, sep: char)
    requires sep !in a
    ensures Split(a, sep) == [a]
    decreases |a|
  {
    if |a| > 0 {
      SplitWithoutSeparator(a[1..], sep);
      assert [a[0]] + a[1..] == a;
    }
  }

  /** Splitting `a + sep + b` for a separator-free `a` peels off `a`. */
  lemma {:induction false} SplitAfterSeparator(a: string, b: string, sep: char)
    requires sep !in a
    ensures Split(a + [sep] + b, sep) == [a] + Split(b, sep)
    decreases |a|
  {
    var s := a + [sep] + b;
    if |a| == 0 {
      assert s[1..] == b;
    } else {
      assert s[1..] == a[1..] + [sep] + b;
      SplitAfterSeparator(a[1..], b, sep);
      assert [a[0]] + a[1..] == a;
    }
  }

  /** Splitting a join of separator-free pieces gives the pieces back. */
  lemma {:induction false} SplitJoin(parts: seq<string>, sep: char)
    requires |parts| >= 1
    requires forall i :: 0 <= i < |parts| ==> sep !in parts[i]
    ensures Split(Join(parts, [sep]), sep) == parts
    decreases |parts|
  {
    if |parts| == 1 {
      SplitWithoutSeparator(parts[0], sep);
    } else {
      SplitJoin(parts[1..], sep);
      SplitAfterSeparator(parts[0], Join(parts[1..], [sep]), sep);
      assert [parts[0]] + parts[1..] == parts;
    }
  }

  /** A string that starts with the separator has `""` as its first piece. */
  lemma LeadingSeparatorGivesEmptyFirstPiece(s: string, sep: char)
    requires |s| > 0 && s[0] == sep
    ensures Split(s, sep)[0] == ""
  {
  }

  /** Concatenation of a list of strings (`"".join(parts)`). */
  function Concat(parts: seq<string>): string
    decreases |parts|
  {
    if |parts| == 0 then "" else parts[0] + Concat(parts[1..])
  }

  lemma {:induction false} ConcatAppend(a: seq<string>, b: seq<string>)
    ensures Concat(a + b) == Concat(a) + Concat(b)
    decreases |a|
  {
    if |a| == 0 {
      assert a + b == b;
    } else {
      assert (a + b)[1..] == a[1..] + b;
      ConcatAppend(a[1..], b);
      calc {
        Concat(a + b);
        a[0] + Concat(a[1..] + b);
        a[0] + (Concat(a[1..]) + Concat(b));
        (a[0] + Concat(a[1..])) + Concat(b);
      }
    }
  }

  // ---------------------------------------------------------------------
  // indexOf and rsplit
  // ---------------------------------------------------------------------

  /** JavaScript `xs.indexOf(x)`: the first position holding `x`, or -1. */
  function IndexOf<T(==)>(xs: seq<T>, x: T): (i: int)
    ensures -1 <= i < |xs|
    ensures i == -1 <==> x !in xs
    ensures 0 <= i ==> xs[i] == x && x !in xs[..i]
    decreases |xs|
  {
    if |xs| == 0 then -1
    else if xs[0] == x then 0
    else
      var j := IndexOf(xs[1..], x);
      if j == -1 then -1
      else
        assert xs[..j + 1] == [xs[0]] + xs[1..][..j];
        j + 1
  }

  /** Python `s.rsplit(c, 1)[1]`: the text after the last `c`, or `None`
      where Python's indexing would raise because `c` does not occur. */
  function AfterLast(s: string, c: char): (r: Option<string>)
    ensures r.None? <==> c !in s
    ensures r.Some? ==> |r.value| < |s| && c !in r.value
    ensures r.Some? ==> s[|s| - |r.value| - 1] == c && s[|s| - |r.value|..] == r.value
    decreases |s|
  {
    if |s| == 0 then None
    else if s[|s| - 1] == c then Some("")
    else
      match AfterLast(s[..|s| - 1], c)
      case None => None
      case Some(t) => Some(t + [s[|s| - 1]])
  }

  /** `AfterLast` gives `e` exactly when `s` is some stem, then `c`, then
      a `c`-free `e`. */
  lemma {:induction false} AfterLastIff(s: string, c: char, e: string)
    ensures AfterLast(s, c) == Some(e) <==> c !in e && |e| < |s| && s[|s| - |e| - 1] == c && s[|s| - |e|..] == e
    decreases |s|
  {
    if c !in e && |e| < |s| && s[|s| - |e| - 1] == c && s[|s| - |e|..] == e {
      AfterLastOfShape(s, c, e);
    }
  }

  lemma {:induction false} AfterLastOfShape(s: string, c: char, e: string)
    requires c !in e && |e| < |s| && s[|s| - |e| - 1] == c && s[|s| - |e|..] == e
    ensures AfterLast(s, c) == Some(e)
    decreases |s|
  {
    var last := s[|s| - 1];
    if |e| == 0 {
      assert last == c;
    } else {
      assert last == e[|e| - 1];
      assert last != c;
      var s' := s[..|s| - 1];
      var e' := e[..|e| - 1];
      assert s'[|s'| - |e'| - 1] == s[|s| - |e| - 1];
      assert s'[|s'| - |e'|..] == s[|s| - |e|..][..|e| - 1];
      AfterLastOfShape(s', c, e');
      assert AfterLast(s, c) == Some(e' + [last]);
      assert e' + [last] == e;
    }
  }

  /** Prepending text never changes the part after the last `c`, once
      the appended part contains a `c`. */
  lemma AfterLastOfSuffix(a: string, b: string, c: char)
    requires c in b
    ensures AfterLast(a + b, c) == AfterLast(b, c)
  {
    var e := AfterLast(b, c).value;
    var s := a + b;
    assert s[|s| - |e| - 1] == b[|b| - |e| - 1];
    assert s[|s| - |e|..] == b[|b| - |e|..];
    AfterLastOfShape(s, c, e);
  }

  /** Lower-casing maps `.` to itself and nothing else to `.`. */
  lemma DotInLower(s: string)
    ensures '.' in Lower(s) <==> '.' in s
  {
    var l := Lower(s);
    if '.' in s {
      var k :| 0 <= k < |s| && s[k] == '.';
      assert l[k] == '.';
    }
    if '.' in l {
      var j :| 0 <= j < |l| && l[j] == '.';
      assert LowerChar(s[j]) == '.';
    }
  }

  /** Lower-casing commutes with taking a suffix. */
  lemma LowerSuffix(s: string, n: nat)
    requires n <= |s|
    ensures Lower(s)[n..] == Lower(s[n..])
  {
    var l := Lower(s);
    forall i | 0 <= i < |s| - n
      ensures l[n..][i] == Lower(s[n..])[i]
    {
      assert l[n + i] == LowerChar(s[n + i]);
    }
  }

  /** Lower-casing commutes with taking the text after the last `.`. */
  lemma AfterLastDotLower(s: string)
    ensures '.' !in s ==> AfterLast(Lower(s), '.').None?
    ensures '.' in s ==> AfterLast(Lower(s), '.') == Some(Lower(AfterLast(s, '.').value))
  {
    DotInLower(s);
    if '.' in s {
      var e := AfterLast(s, '.').value;
      AfterLastDotLowerShape(s, e);
    }
  }

  lemma AfterLastDotLowerShape(s: string, e: string)
    requires AfterLast(s, '.') == Some(e)
    ensures AfterLast(Lower(s), '.') == Some(Lower(e))
  {
    var n := |s| - |e|;
    var l := Lower(s);
    assert s[n..] == e && s[n - 1] == '.';
    LowerSuffix(s, n);
    assert l[n..] == Lower(e);
    assert l[n - 1] == '.';
    DotInLower(e);
    AfterLastOfShape(l, '.', Lower(e));
  }

  lemma LowerIdempotent(s: string)
    ensures Lower(Lower(s)) == Lower(s)
  {
  }

  // ---------------------------------------------------------------------
  // strip
  // ---------------------------------------------------------------------

  function StripStart(s: string): string
    decreases |s|
  {
    if |s| > 0 && IsPySpace(s[0]) then StripStart(s[1..]) else s
  }

  function StripEnd(s: string): string
    decreases |s|
  {
    if |s| > 0 && IsPySpace(s[|s| - 1]) then StripEnd(s[..|s| - 1]) else s
  }

  /** Python's argument-less `s.strip()`. */
  function Strip(s: string): string {
    StripEnd(StripStart(s))
  }

  predicate AllSpace(s: string) {
    forall i :: 0 <= i < |s| ==> IsPySpace(s[i])
  }

  lemma {:induction false} StripStartEmpty(s: string)
    ensures StripStart(s) == "" <==> AllSpace(s)
    decreases |s|
  {
    if |s| > 0 {
      StripStartEmpty(s[1..]);
      if IsPySpace(s[0]) && AllSpace(s[1..]) {
        forall i | 0 <= i < |s| ensures IsPySpace(s[i]) {
          if i > 0 { assert s[i] == s[1..][i - 1]; }
        }
      }
      if AllSpace(s) {
        assert AllSpace(s[1..]) by {
          forall i | 0 <= i < |s[1..]| ensures IsPySpace(s[1..][i]) {
            assert s[1..][i] == s[i + 1];
          }
        }
      }
    }
  }

  lemma {:induction false} StripEndKeepsHead(t: string)
    requires |t| > 0 && !IsPySpace(t[0])
    ensures |StripEnd(t)| > 0
    decreases |t|
  {
    if IsPySpace(t[|t| - 1]) {
      StripEndKeepsHead(t[..|t| - 1]);
    }
  }

  /** `strip()` leaves nothing exactly when every character is whitespace. */
  lemma StripEmptyIffAllSpace(s: string)
    ensures |Strip(s)| == 0 <==> AllSpace(s)
  {
    StripStartEmpty(s);
    var t := StripStart(s);
    if t != "" {
      StripStartHead(s);
      StripEndKeepsHead(t);
    }
  }

  lemma {:induction false} StripStartHead(s: string)
    requires StripStart(s) != ""
    ensures !IsPySpace(StripStart(s)[0])
    decreases |s|
  {
    if |s| > 0 && IsPySpace(s[0]) {
      StripStartHead(s[1..]);
    }
  }

  // ---------------------------------------------------------------------
  // Decimal formatting
  // ---------------------------------------------------------------------

  predicate IsDigit(c: char) { '0' <= c <= '9' }

  function DigitChar(d: nat): (c: char)
    requires d < 10
    ensures IsDigit(c)
  {
    "0123456789"[d]
  }

  /** JavaScript `String(n)` / Python `str(n)` for a natural number. */
  function NatToString(n: nat): (s: string)
    ensures |s| >= 1
    ensures forall i :: 0 <= i < |s| ==> IsDigit(s[i])
    decreases n
  {
    if n < 10 then [DigitChar(n)] else NatToString(n / 10) + [DigitChar(n % 10)]
  }

  /** Python `str(n)` for an integer. */
  function IntToString(n: int): string {
    if n < 0 then "-" + NatToString(-n) else NatToString(n)
  }
}
