/**
 * Strings as the source treats them: splitting on a separator (JavaScript's
 * `String.prototype.split` and Python's `str.split` agree for a one-character
 * separator), decimal digit strings, and the lexicographic order that
 * JavaScript's `<` and SQL's `>=`/`<=` apply to text.
 */
module Text {

  /** Index of the first occurrence of `c` in `s`. */
  function IndexOf(s: string, c: char): (i: nat)
    requires c in s
    ensures i < |s| && s[i] == c
    ensures forall j :: 0 <= j < i ==> s[j] != c
  {
    if s[0] == c then 0 else 1 + IndexOf(s[1..], c)
  }

  /** The pieces of `s` between occurrences of `sep`, in order; never empty. */
  function Split(s: string, sep: char): (parts: seq<string>)
    ensures |parts| >= 1
    decreases |s|
  {
    if sep !in s then [s]
    else
      var i := IndexOf(s, sep);
      [s[..i]] + Split(s[i + 1..], sep)
  }

  /** The inverse of Split: the parts glued back together with `sep`. */
  function Join(parts: seq<string>, sep: char): string
    requires |parts| >= 1
  {
    if |parts| == 1 then parts[0] else parts[0] + [sep] + Join(parts[1..], sep)
  }

  /** Splitting and re-joining gives the original string back, and no part holds the separator. */
  lemma {:induction false} SplitJoin(s: string, sep: char)
    ensures Join(Split(s, sep), sep) == s
    ensures forall p :: p in Split(s, sep) ==> sep !in p
    decreases |s|
  {
    if sep in s {
      var i := IndexOf(s, sep);
      var rest := s[i + 1..];
      SplitJoin(rest, sep);
      var parts := Split(rest, sep);
      assert Split(s, sep) == [s[..i]] + parts;
      assert ([s[..i]] + parts)[1..] == parts;
      assert Join(Split(s, sep), sep) == s[..i] + [sep] + Join(parts, sep);
      assert s == s[..i] + [sep] + rest;
      assert sep !in s[..i] by {
        forall j | 0 <= j < i ensures s[..i][j] != sep { assert s[j] != sep; }
      }
    }
  }

  /** A string with exactly one separator splits into the text before and after it. */
  lemma {:induction false} SplitAround(a: string, b: string, sep: char)
    requires sep !in a && sep !in b
    ensures Split(a + [sep] + b, sep) == [a, b]
  {
    var s := a + [sep] + b;
    assert s[|a|] == sep;
    var i := IndexOf(s, sep);
    assert forall j :: 0 <= j < |a| ==> s[j] == a[j];
    assert s[..i] == a;
    assert s[i + 1..] == b;
  }

  predicate IsDigit(c: char) { '0' <= c <= '9' }

  predicate IsDigits(s: string) { forall i :: 0 <= i < |s| ==> IsDigit(s[i]) }

  /** A digit string holds no separator, so it survives a split intact. */
  lemma DigitsHoldNoDash(s: string)
    requires IsDigits(s)
    ensures '-' !in s
  {
    forall i | 0 <= i < |s| ensures s[i] != '-' { assert IsDigit(s[i]); }
  }

  /** The decimal value of a digit string; the empty string has value 0. */
  function DigitsValue(s: string): (n: nat)
    requires IsDigits(s)
  {
    if s == [] then 0
    else DigitsValue(s[..|s| - 1]) * 10 + (s[|s| - 1] as int - '0' as int)
  }

  /** Appending a digit multiplies the value by ten and adds the digit. */
  lemma DigitsValueAppend(s: string, d: char)
    requires IsDigits(s) && IsDigit(d)
    ensures IsDigits(s + [d])
    ensures DigitsValue(s + [d]) == DigitsValue(s) * 10 + (d as int - '0' as int)
  {
    assert (s + [d])[..|s|] == s;
  }

  /** Strict lexicographic order on code points. */
  predicate LexLess(a: string, b: string)
    decreases |a|
  {
    if a == [] then b != []
    else if b == [] then false
    else if a[0] != b[0] then a[0] < b[0]
    else LexLess(a[1..], b[1..])
  }

  lemma {:induction false} LexLessIrreflexive(a: string)
    ensures !LexLess(a, a)
    decreases |a|
  {
    if a != [] { LexLessIrreflexive(a[1..]); }
  }

  lemma {:induction false} LexLessTransitive(a: string, b: string, c: string)
    requires LexLess(a, b) && LexLess(b, c)
    ensures LexLess(a, c)
    decreases |a|
  {
    if a != [] && b != [] && c != [] && a[0] == b[0] && b[0] == c[0] {
      LexLessTransitive(a[1..], b[1..], c[1..]);
    }
  }

  /** Any two different strings are ordered one way or the other. */
  lemma {:induction false} LexLessTotal(a: string, b: string)
    requires a != b
    ensures LexLess(a, b) || LexLess(b, a)
    decreases |a|
  {
    if a != [] && b != [] && a[0] == b[0] {
      assert a == [a[0]] + a[1..] && b == [b[0]] + b[1..];
      LexLessTotal(a[1..], b[1..]);
    }
  }

  /** `a <= b` as SQL compares text. */
  predicate LexLessEq(a: string, b: string) { a == b || LexLess(a, b) }

  /** Comparing texts with equal-length prefixes: the prefixes decide unless they are equal. */
  lemma {:induction false} LexLessAppend(p1: string, p2: string, s1: string, s2: string)
    requires |p1| == |p2|
    ensures LexLess(p1 + s1, p2 + s2) <==> LexLess(p1, p2) || (p1 == p2 && LexLess(s1, s2))
    decreases |p1|
  {
    if p1 != [] {
      assert (p1 + s1)[0] == p1[0] && (p2 + s2)[0] == p2[0];
      assert (p1 + s1)[1..] == p1[1..] + s1 && (p2 + s2)[1..] == p2[1..] + s2;
      LexLessAppend(p1[1..], p2[1..], s1, s2);
      if p1[0] == p2[0] {
        assert p1 == p2 <==> p1[1..] == p2[1..] by {
          assert p1 == [p1[0]] + p1[1..] && p2 == [p2[0]] + p2[1..];
        }
      }
    } else {
      assert p1 + s1 == s1 && p2 + s2 == s2;
    }
  }

  /** Two digit strings of the same length compare as text exactly as their values compare. */
  lemma {:induction false} DigitsOrder(a: string, b: string)
    requires IsDigits(a) && IsDigits(b) && |a| == |b|
    ensures LexLess(a, b) <==> DigitsValue(a) < DigitsValue(b)
    ensures a == b <==> DigitsValue(a) == DigitsValue(b)
    decreases |a|
  {
    if a != [] {
      var n := |a| - 1;
      var a0, b0 := a[..n], b[..n];
      var x, y := a[n] as int - '0' as int, b[n] as int - '0' as int;
      assert IsDigits(a0) && IsDigits(b0);
      DigitsOrder(a0, b0);
      assert a == a0 + [a[n]] && b == b0 + [b[n]];
      LexLessAppend(a0, b0, [a[n]], [b[n]]);
      assert LexLess([a[n]], [b[n]]) <==> x < y;
      assert 0 <= x <= 9 && 0 <= y <= 9;
      var va, vb := DigitsValue(a0), DigitsValue(b0);
      assert DigitsValue(a) == va * 10 + x && DigitsValue(b) == vb * 10 + y;
      if va < vb {
        assert va * 10 + 10 <= vb * 10;
      } else if vb < va {
        assert vb * 10 + 10 <= va * 10;
      } else if x == y {
        assert a0 == b0 && a[n] == b[n];
      }
    }
  }
}
