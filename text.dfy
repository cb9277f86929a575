/**
 * String primitives of JavaScript that the core relies on: the white-space
 * class shared by `String.prototype.trim` and the regular-expression class
 * `\s`, trimming, prefix and substring tests, `split(c)[0]` and the part of
 * `toLowerCase` that matters when comparing against lower-case ASCII keys.
 * A `char` is one Unicode scalar value. JavaScript strings are sequences
 * of UTF-16 code units, so lengths and positions agree with JavaScript's
 * only for text in the Basic Multilingual Plane; a character outside it is
 * one `char` here and two code units there.
 */
module Text {

  /** JavaScript white space and line terminators (the set used by `trim` and `\s`). */
  predicate IsSpace(c: char) {
    || c == '\t' || c == '\n' || c == '\U{000B}' || c == '\U{000C}' || c == '\r' || c == ' '
    || c == '\U{00A0}' || c == '\U{1680}' || ('\U{2000}' <= c <= '\U{200A}')
    || c == '\U{2028}' || c == '\U{2029}' || c == '\U{202F}' || c == '\U{205F}'
    || c == '\U{3000}' || c == '\U{FEFF}'
  }

  predicate AllSpace(s: string) {
    forall k | 0 <= k < |s| :: IsSpace(s[k])
  }

  /** No white space at either end. */
  predicate Trimmed(s: string) {
    s == [] || (!IsSpace(s[0]) && !IsSpace(s[|s| - 1]))
  }

  /** Length of the white-space run that starts the string. */
  function LeadingSpace(s: string): (n: nat)
    ensures n <= |s|
    ensures AllSpace(s[..n])
    ensures n < |s| ==> !IsSpace(s[n])
  {
    if s == [] || !IsSpace(s[0]) then 0
    else
      var n := 1 + LeadingSpace(s[1..]);
      assert s[..n] == [s[0]] + s[1..][..n - 1];
      n
  }

  /** Length of the white-space run that ends the string. */
  function TrailingSpace(s: string): (n: nat)
    ensures n <= |s|
    ensures AllSpace(s[|s| - n..])
    ensures n < |s| ==> !IsSpace(s[|s| - 1 - n])
  {
    if s == [] || !IsSpace(s[|s| - 1]) then 0
    else
      var init := s[..|s| - 1];
      var n := 1 + TrailingSpace(init);
      assert s[|s| - n..] == init[|init| - (n - 1)..] + [s[|s| - 1]];
      n
  }

  /** `s.trimStart()` */
  function TrimStart(s: string): (r: string)
    ensures r == s[LeadingSpace(s)..]
    ensures r == [] || !IsSpace(r[0])
  {
    s[LeadingSpace(s)..]
  }

  /** `s.trimEnd()` */
  function TrimEnd(s: string): (r: string)
    ensures r == s[..|s| - TrailingSpace(s)]
    ensures r == [] || !IsSpace(r[|r| - 1])
  {
    s[..|s| - TrailingSpace(s)]
  }

  /** `s.trim()`: the infix that remains once both white-space ends are cut off. */
  function Trim(s: string): (r: string)
    ensures Trimmed(r)
    ensures LeadingSpace(s) + |r| <= |s|
    ensures r == s[LeadingSpace(s)..LeadingSpace(s) + |r|]
    ensures AllSpace(s[LeadingSpace(s) + |r|..])
    ensures r == [] <==> AllSpace(s)
  {
    var n := LeadingSpace(s);
    var t := TrimStart(s);
    var r := TrimEnd(t);
    TrimEndParts(t, r);
    SuffixSlices(s, n, t, |r|);
    TrimStartEmpty(s, n, t);
    r
  }

  /** `trimEnd` keeps a prefix and cuts off only white space. */
  lemma TrimEndParts(t: string, r: string)
    requires r == TrimEnd(t)
    ensures |r| <= |t| && r == t[..|r|] && AllSpace(t[|r|..])
    ensures r != [] ==> r[0] == t[0] && !IsSpace(r[|r| - 1])
    ensures r == [] <==> AllSpace(t)
  {
    if r != [] {
      assert r[|r| - 1] == t[|r| - 1];
    }
  }

  lemma SuffixSlices(s: string, n: nat, t: string, k: nat)
    requires n <= |s| && t == s[n..] && k <= |t|
    ensures t[..k] == s[n..n + k] && t[k..] == s[n + k..]
  {
  }

  /** The string is all white space exactly when nothing follows its
      leading run. */
  lemma TrimStartEmpty(s: string, n: nat, t: string)
    requires n == LeadingSpace(s) && t == s[n..]
    ensures t == [] <==> AllSpace(s)
    ensures t != [] ==> !IsSpace(t[0])
  {
    if t != [] {
      assert t[0] == s[n];
    } else {
      assert s[..n] == s;
    }
  }

  /** Cutting white space off one end and then the other: trimming a padded
      trimmed string gives it back. */
  lemma {:induction false} TrimPadded(a: string, b: string, c: string)
    requires AllSpace(a) && AllSpace(c) && Trimmed(b)
    ensures Trim(a + b + c) == b
  {
    var s := a + b + c;
    if b == [] {
      assert AllSpace(s) by {
        forall k | 0 <= k < |s| ensures IsSpace(s[k]) {
          if k < |a| { assert s[k] == a[k]; } else { assert s[k] == c[k - |a|]; }
        }
      }
    } else {
      LeadingSpaceOfPadding(a, b + c);
      assert s == a + (b + c);
      assert TrimStart(s) == b + c;
      TrailingSpaceOfPadding(b, c);
      assert TrimEnd(b + c) == b;
    }
  }

  lemma LeadingSpaceOfPadding(a: string, x: string)
    requires AllSpace(a) && x != [] && !IsSpace(x[0])
    ensures LeadingSpace(a + x) == |a|
    decreases |a|
  {
    if a != [] {
      assert (a + x)[1..] == a[1..] + x;
      LeadingSpaceOfPadding(a[1..], x);
    }
  }

  lemma TrailingSpaceOfPadding(x: string, c: string)
    requires AllSpace(c) && x != [] && !IsSpace(x[|x| - 1])
    ensures TrailingSpace(x + c) == |c|
    decreases |c|
  {
    if c != [] {
      assert (x + c)[..|x + c| - 1] == x + c[..|c| - 1];
      TrailingSpaceOfPadding(x, c[..|c| - 1]);
    }
  }

  /** A trimmed string is its own trim. */
  lemma TrimOfTrimmed(s: string)
    requires Trimmed(s)
    ensures Trim(s) == s
  {
    TrimPadded([], s, []);
    assert [] + s + [] == s;
  }

  /** Trimming is idempotent. */
  lemma TrimIdempotent(s: string)
    ensures Trim(Trim(s)) == Trim(s)
  {
    TrimPadded([], Trim(s), []);
    assert [] + Trim(s) + [] == Trim(s);
  }

  /** White space in front of a string is invisible to `trim`. */
  lemma TrimIgnoresLeadingSpace(w: string, s: string)
    requires AllSpace(w)
    ensures Trim(w + s) == Trim(s)
  {
    var r := Trim(s);
    var i := LeadingSpace(s);
    var pre, post := s[..i], s[i + |r|..];
    TrimSplit(s, pre, r, post);
    AllSpaceConcat(w, pre);
    ConcatAssoc(w, pre, r, post);
    TrimPadded(w + pre, r, post);
  }

  /** A string is its leading space, its trimmed part and its trailing space. */
  lemma TrimSplit(s: string, pre: string, r: string, post: string)
    requires r == Trim(s) && pre == s[..LeadingSpace(s)] && post == s[LeadingSpace(s) + |r|..]
    ensures s == pre + r + post
  {
    var n := LeadingSpace(s);
    SliceSplit(s, n, n + |r|);
  }

  lemma SliceSplit(s: string, i: nat, j: nat)
    requires i <= j <= |s|
    ensures s == s[..i] + s[i..j] + s[j..]
  {
    assert s[..i] + s[i..j] == s[..j];
  }

  lemma AppendAssoc(a: string, b: string, c: string)
    ensures a + b + c == a + (b + c)
  {
  }

  lemma ConcatAssoc(a: string, b: string, c: string, d: string)
    ensures a + (b + c + d) == (a + b) + c + d
  {
  }

  lemma AllSpaceConcat(a: string, b: string)
    requires AllSpace(a) && AllSpace(b)
    ensures AllSpace(a + b)
  {
    forall k | 0 <= k < |a + b| ensures IsSpace((a + b)[k]) {
      if k < |a| { assert (a + b)[k] == a[k]; } else { assert (a + b)[k] == b[k - |a|]; }
    }
  }

  /** `s.trimStart()` of a string whose second part starts with a visible character. */
  lemma TrimStartConcat(p: string, x: string)
    requires x != [] && !IsSpace(x[0])
    ensures TrimStart(p + x) == TrimStart(p) + x
    decreases |p|
  {
    if p != [] && IsSpace(p[0]) {
      assert (p + x)[1..] == p[1..] + x;
      TrimStartConcat(p[1..], x);
    } else if p == [] {
      assert p + x == x;
    }
  }

  /** `s.trimEnd()` of a string whose first part ends with a visible character. */
  lemma TrimEndConcat(x: string, q: string)
    requires x != [] && !IsSpace(x[|x| - 1])
    ensures TrimEnd(x + q) == x + TrimEnd(q)
    decreases |q|
  {
    if q != [] && IsSpace(q[|q| - 1]) {
      assert (x + q)[..|x + q| - 1] == x + q[..|q| - 1];
      TrimEndConcat(x, q[..|q| - 1]);
    } else if q == [] {
      assert x + q == x;
    }
  }

  /** A string that ends with a visible character is its leading space
      followed by its trimmed part. */
  lemma TrimOfVisibleEnd(x: string, pre: string)
    requires x != [] && !IsSpace(x[|x| - 1]) && pre == x[..LeadingSpace(x)]
    ensures Trim(x) != [] && x == pre + Trim(x) && AllSpace(pre)
  {
    var r := Trim(x);
    var post := x[LeadingSpace(x) + |r|..];
    TrimSplit(x, pre, r, post);
    NoTrailingSpace(x, pre + r, post);
    assert !AllSpace(x) by {
      assert !IsSpace(x[|x| - 1]);
    }
  }

  lemma NoTrailingSpace(x: string, a: string, post: string)
    requires x == a + post && AllSpace(post) && x != [] && !IsSpace(x[|x| - 1])
    ensures x == a
  {
  }

  /** A string that starts with a visible character is its trimmed part
      followed by its trailing space. */
  lemma TrimOfVisibleStart(y: string, post: string)
    requires y != [] && !IsSpace(y[0]) && post == y[|Trim(y)|..]
    ensures Trim(y) != [] && y == Trim(y) + post && AllSpace(post)
  {
    assert !AllSpace(y);
  }

  lemma SpacedTrimmed(u: string, v: string)
    requires u != [] && Trimmed(u) && v != [] && Trimmed(v)
    ensures Trimmed(u + " " + v)
  {
    var m := u + " " + v;
    assert m[0] == u[0];
    assert m[|m| - 1] == v[|v| - 1];
  }

  lemma TrimOfPaddedParts(x: string, y: string, pre: string, u: string, v: string, post: string)
    requires x == pre + u && y == v + post && AllSpace(pre) && AllSpace(post)
    requires Trimmed(u + " " + v)
    ensures Trim(x + " " + y) == u + " " + v
  {
    assert x + " " + y == pre + (u + " " + v) + post;
    TrimPadded(pre, u + " " + v, post);
  }

  /** One space between two words survives trimming. */
  lemma TrimAroundSpace(x: string, y: string)
    requires x != [] && !IsSpace(x[|x| - 1])
    requires y != [] && !IsSpace(y[0])
    ensures Trim(x + " " + y) == Trim(x) + " " + Trim(y)
  {
    var pre, post := x[..LeadingSpace(x)], y[|Trim(y)|..];
    TrimOfVisibleEnd(x, pre);
    TrimOfVisibleStart(y, post);
    SpacedTrimmed(Trim(x), Trim(y));
    TrimOfPaddedParts(x, y, pre, Trim(x), Trim(y), post);
  }

  /** `s.startsWith(p)` */
  predicate StartsWith(s: string, p: string) {
    |p| <= |s| && s[..|p|] == p
  }

  /** `s.endsWith(p)` */
  predicate EndsWith(s: string, p: string) {
    |p| <= |s| && s[|s| - |p|..] == p
  }

  /** `sub` occurs in `s` at position `i`. */
  predicate InfixAt(s: string, sub: string, i: int) {
    0 <= i && i + |sub| <= |s| && s[i..i + |sub|] == sub
  }

  lemma InfixOfMiddle(a: string, b: string, c: string)
    ensures InfixAt(a + b + c, b, |a|)
  {
    assert (a + b + c)[|a|..|a| + |b|] == b;
  }

  /** An infix of an infix is an infix. */
  lemma InfixWithin(s: string, h: string, i: int, sub: string, j: int)
    requires InfixAt(s, h, i) && InfixAt(h, sub, j)
    ensures InfixAt(s, sub, i + j)
  {
    forall k | 0 <= k < |sub| ensures s[i + j + k] == sub[k] {
      assert s[i..i + |h|][j + k] == h[j + k];
      assert h[j..j + |sub|][k] == sub[k];
    }
  }

  /** `s.includes(sub)` */
  function Contains(s: string, sub: string): (r: bool)
    ensures r <==> exists i :: InfixAt(s, sub, i)
    decreases |s|
  {
    if StartsWith(s, sub) then
      assert InfixAt(s, sub, 0);
      true
    else if s == [] then
      false
    else
      var r := Contains(s[1..], sub);
      assert r ==> exists i :: InfixAt(s, sub, i) by {
        if r {
          var i :| InfixAt(s[1..], sub, i);
          assert s[1..][i..i + |sub|] == s[i + 1..i + 1 + |sub|];
          assert InfixAt(s, sub, i + 1);
        }
      }
      assert (exists i :: InfixAt(s, sub, i)) ==> r by {
        if exists i :: InfixAt(s, sub, i) {
          var i :| InfixAt(s, sub, i);
          assert i != 0;
          assert s[1..][i - 1..i - 1 + |sub|] == s[i..i + |sub|];
          assert InfixAt(s[1..], sub, i - 1);
        }
      }
      r
  }

  /** `s.split(c)[0]`: everything before the first `c`, or all of `s`. */
  function BeforeFirst(s: string, c: char): (r: string)
    ensures StartsWith(s, r)
    ensures c !in r
    ensures |r| < |s| ==> s[|r|] == c
  {
    if s == [] || s[0] == c then []
    else [s[0]] + BeforeFirst(s[1..], c)
  }

  /** Lower-casing of one character as far as comparing with lower-case
      ASCII goes: `A`-`Z` map to `a`-`z` and KELVIN SIGN (U+212A) maps to `k`.
      The only other character whose lower case holds an ASCII letter is
      U+0130, which becomes `i` followed by U+0307; since U+0307 occurs in
      none of the compared keys, leaving U+0130 unchanged decides every
      comparison the same way. */
  function LowerChar(c: char): (r: char)
    ensures 'A' <= c <= 'Z' ==> r as int == c as int + 32
    ensures c == '\U{212A}' ==> r == 'k'
    ensures !('A' <= c <= 'Z') && c != '\U{212A}' ==> r == c
  {
    if 'A' <= c <= 'Z' then (c as int + 32) as char
    else if c == '\U{212A}' then 'k'
    else c
  }

  /** `s.toLowerCase()`, up to characters that can never take part in a match
      against a lower-case ASCII string. Unlike JavaScript's, this one keeps
      the length. */
  function Lower(s: string): (r: string)
    ensures |r| == |s|
    ensures forall k | 0 <= k < |s| :: r[k] == LowerChar(s[k])
  {
    if s == [] then [] else [LowerChar(s[0])] + Lower(s[1..])
  }
}
