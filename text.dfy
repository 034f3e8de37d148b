/**
 * The two string operations the chart analysis relies on: `str.strip()` and the ordering Python's
 * `sorted` puts on strings (lexicographic by code point), with the sorting of a dictionary's keys.
 */
module Text {

  /** The characters `str.isspace()` accepts. */
  predicate IsSpace(c: char)
  {
    var n := c as int;
    (9 <= n <= 13) || (28 <= n <= 32) || n == 133 || n == 160 || n == 5760
    || (8192 <= n <= 8202) || n == 8232 || n == 8233 || n == 8239 || n == 8287 || n == 12288
  }

  predicate AllSpace(s: string)
  {
    forall k :: 0 <= k < |s| ==> IsSpace(s[k])
  }

  /** The length of the run of whitespace `s` starts with. */
  function LeadingSpace(s: string): (i: nat)
    ensures i <= |s| && AllSpace(s[..i])
    ensures i < |s| ==> !IsSpace(s[i])
  {
    if s != [] && IsSpace(s[0]) then
      var k := LeadingSpace(s[1..]);
      assert s[..k + 1] == [s[0]] + s[1..][..k];
      k + 1
    else
      0
  }

  /** Where the run of whitespace `s` ends with begins. */
  function TrailingSpace(s: string): (j: nat)
    ensures j <= |s| && AllSpace(s[j..])
    ensures 0 < j ==> !IsSpace(s[j - 1])
  {
    if s != [] && IsSpace(s[|s| - 1]) then
      var init := s[..|s| - 1];
      var k := TrailingSpace(init);
      assert s[k..] == init[k..] + [s[|s| - 1]];
      k
    else
      |s|
  }

  /**
   * `str.strip()`: what is left of `s` after removing whitespace at both ends; it is empty or
   * starts and ends with a non-space character.
   */
  function Strip(s: string): (t: string)
    ensures |t| <= |s|
    ensures t == [] || (!IsSpace(t[0]) && !IsSpace(t[|t| - 1]))
  {
    var i := LeadingSpace(s);
    var j := TrailingSpace(s[i..]);
    s[i..][..j]
  }

  /** What strip removes is whitespace: `s` is the stripped text with whitespace on either side. */
  lemma StripDecomposes(s: string)
    ensures exists pre, post :: AllSpace(pre) && AllSpace(post) && s == pre + Strip(s) + post
  {
    var i := LeadingSpace(s);
    var u := s[i..];
    var j := TrailingSpace(u);
    assert s == s[..i] + u[..j] + u[j..];
  }

  lemma {:induction false} LeadingSpaceOfPadded(pre: string, t: string)
    requires AllSpace(pre)
    requires t != [] && !IsSpace(t[0])
    ensures LeadingSpace(pre + t) == |pre|
  {
    if pre != [] {
      assert (pre + t)[1..] == pre[1..] + t;
      LeadingSpaceOfPadded(pre[1..], t);
    }
  }

  lemma {:induction false} TrailingSpaceOfPadded(t: string, post: string)
    requires AllSpace(post)
    requires t != [] && !IsSpace(t[|t| - 1])
    ensures TrailingSpace(t + post) == |t|
  {
    if post != [] {
      var init := post[..|post| - 1];
      assert (t + post)[..|t + post| - 1] == t + init;
      TrailingSpaceOfPadded(t, init);
    } else {
      assert t + post == t;
    }
  }

  /** A text whose two ends are not whitespace is what strip leaves of it, padded on either side. */
  lemma StripPadded(pre: string, t: string, post: string)
    requires AllSpace(pre) && AllSpace(post)
    requires t != [] && !IsSpace(t[0]) && !IsSpace(t[|t| - 1])
    ensures Strip(pre + t + post) == t
  {
    var s := pre + t + post;
    assert s == pre + (t + post);
    LeadingSpaceOfPadded(pre, t + post);
    assert s[|pre|..] == t + post;
    TrailingSpaceOfPadded(t, post);
  }

  /** Stripping twice is stripping once. */
  lemma StripIdempotent(s: string)
    ensures Strip(Strip(s)) == Strip(s)
  {
    var t := Strip(s);
    if t != [] {
      StripPadded([], t, []);
      assert [] + t + [] == t;
    }
  }

  /** Python's `<` on strings: lexicographic order by code point, a proper prefix first. */
  predicate Less(a: string, b: string)
  {
    if a == [] then b != []
    else if b == [] then false
    else if a[0] != b[0] then a[0] < b[0]
    else Less(a[1..], b[1..])
  }

  lemma {:induction false} LessIrreflexive(a: string)
    ensures !Less(a, a)
  {
    if a != [] {
      LessIrreflexive(a[1..]);
    }
  }

  lemma {:induction false} LessTransitive(a: string, b: string, c: string)
    requires Less(a, b) && Less(b, c)
    ensures Less(a, c)
  {
    if a != [] && b != [] && c != [] && a[0] == b[0] == c[0] {
      LessTransitive(a[1..], b[1..], c[1..]);
    }
  }

  /** Two different strings are ordered one way or the other. */
  lemma {:induction false} LessTotal(a: string, b: string)
    requires a != b
    ensures Less(a, b) || Less(b, a)
  {
    if a != [] && b != [] && a[0] == b[0] {
      assert a == [a[0]] + a[1..] && b == [b[0]] + b[1..];
      LessTotal(a[1..], b[1..]);
    }
  }

  lemma {:induction false} LessAsymmetric(a: string, b: string)
    requires Less(a, b)
    ensures !Less(b, a)
  {
    if a != [] && b != [] && a[0] == b[0] {
      LessAsymmetric(a[1..], b[1..]);
    }
  }

  /** Strictly increasing: the order `sorted` produces for the distinct keys of a dictionary. */
  ghost predicate StrictlySorted(ks: seq<string>)
  {
    forall i, j :: 0 <= i < j < |ks| ==> Less(ks[i], ks[j])
  }

  predicate IsLeast(m: string, keys: set<string>)
  {
    m in keys && forall y | y in keys :: y == m || Less(m, y)
  }

  /** Every non-empty finite set of strings has a least element. */
  lemma {:induction false} LeastExists(keys: set<string>)
    requires keys != {}
    ensures exists m :: IsLeast(m, keys)
    decreases |keys|
  {
    var x :| x in keys;
    var rest := keys - {x};
    if rest == {} {
      assert keys == {x};
      assert IsLeast(x, keys);
    } else {
      LeastExists(rest);
      var m :| IsLeast(m, rest);
      if Less(m, x) {
        assert IsLeast(m, keys);
      } else {
        LessTotal(m, x);
        forall y | y in keys
          ensures y == x || Less(x, y)
        {
          if y != x && y != m {
            LessTransitive(x, m, y);
          }
        }
        assert IsLeast(x, keys);
      }
    }
  }

  /** The least element is unique. */
  lemma LeastUnique(m: string, n: string, keys: set<string>)
    requires IsLeast(m, keys) && IsLeast(n, keys)
    ensures m == n
  {
    if m != n {
      LessAsymmetric(m, n);
    }
  }

  /** The least of a non-empty set of keys. */
  ghost function Least(keys: set<string>): (m: string)
    requires keys != {}
    ensures IsLeast(m, keys)
  {
    LeastExists(keys);
    var m :| IsLeast(m, keys);
    m
  }

  /** Putting a key in front of keys it is less than keeps the order strict. */
  lemma SortedCons(m: string, ks: seq<string>)
    requires StrictlySorted(ks)
    requires forall j :: 0 <= j < |ks| ==> Less(m, ks[j])
    ensures StrictlySorted([m] + ks)
  {
    var s := [m] + ks;
    forall i, j | 0 <= i < j < |s|
      ensures Less(s[i], s[j])
    {
      if i > 0 {
        assert s[i] == ks[i - 1] && s[j] == ks[j - 1];
      } else {
        assert s[j] == ks[j - 1];
      }
    }
  }

  /** `sorted(keys)`: the keys in increasing order, the least first. */
  ghost function SortedKeys(keys: set<string>): (ks: seq<string>)
    ensures |ks| == |keys|
    ensures forall k :: k in keys <==> k in ks
    ensures StrictlySorted(ks)
    decreases |keys|
  {
    if keys == {} then []
    else
      var m := Least(keys);
      var rest := SortedKeys(keys - {m});
      assert forall j :: 0 <= j < |rest| ==> Less(m, rest[j]) by {
        forall j | 0 <= j < |rest|
          ensures Less(m, rest[j])
        {
          assert rest[j] in keys - {m};
        }
      }
      SortedCons(m, rest);
      [m] + rest
  }

  /** Whichever key is least comes first: taking it off leaves the sorted rest. */
  lemma SortedKeysHead(ks: seq<string>, m: string, keys: set<string>)
    requires IsLeast(m, keys)
    ensures SortedKeys(keys) == [m] + SortedKeys(keys - {m})
    ensures ks + SortedKeys(keys) == (ks + [m]) + SortedKeys(keys - {m})
  {
    LeastUnique(m, Least(keys), keys);
  }

  /** Selection of the least remaining key, one at a time: the keys in increasing order. */
  method SortKeys(keys: set<string>) returns (ks: seq<string>)
    ensures ks == SortedKeys(keys)
  {
    ks := [];
    var rest := keys;
    while rest != {}
      invariant ks + SortedKeys(rest) == SortedKeys(keys)
      decreases |rest|
    {
      LeastExists(rest);
      var m :| IsLeast(m, rest);
      SortedKeysHead(ks, m, rest);
      ks := ks + [m];
      rest := rest - {m};
    }
  }
}
