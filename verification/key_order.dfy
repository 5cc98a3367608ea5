/** Row keys are ordered byte strings; this module defines prefixes and the
    unsigned lexicographic order the store sorts keys by, and proves the fact
    the hour-bucket ranges rest on: a key lies in `[P + c, P + d)`, where `d`
    is the character right after `c`, exactly when it starts with `P + c`. */
module KeyOrder {

  /** `s` begins with `p`. */
  predicate StartsWith(s: string, p: string)
  {
    |p| <= |s| && s[..|p|] == p
  }

  /** Strict lexicographic order, comparing characters by code (for the
      ASCII keys of this schema, the order of their UTF-8 bytes). */
  predicate Less(a: string, b: string)
    decreases |a|
  {
    |b| > 0 && (|a| == 0 || a[0] < b[0] || (a[0] == b[0] && Less(a[1..], b[1..])))
  }

  predicate LessEq(a: string, b: string)
  {
    a == b || Less(a, b)
  }

  /** The textbook definition of lexicographic order: `a` is a proper prefix
      of `b`, or the two first differ at a position where `a` is smaller. */
  ghost predicate LexicographicallyBefore(a: string, b: string)
  {
    (|a| < |b| && b[..|a|] == a)
    || exists k :: 0 <= k < |a| && k < |b| && a[..k] == b[..k] && a[k] < b[k]
  }

  lemma {:induction false} LessIsLexicographic(a: string, b: string)
    ensures Less(a, b) <==> LexicographicallyBefore(a, b)
    decreases |a|
  {
    if |a| == 0 || |b| == 0 {
    } else if a[0] != b[0] {
      if a[0] < b[0] {
        assert a[..0] == b[..0];
      }
    } else {
      var a', b' := a[1..], b[1..];
      LessIsLexicographic(a', b');
      if LexicographicallyBefore(a', b') {
        if |a'| < |b'| && b'[..|a'|] == a' {
          assert b[..|a|] == [b[0]] + b'[..|a'|];
          assert a == [a[0]] + a';
        } else {
          var k :| 0 <= k < |a'| && k < |b'| && a'[..k] == b'[..k] && a'[k] < b'[k];
          assert a[..k + 1] == [a[0]] + a'[..k];
          assert b[..k + 1] == [b[0]] + b'[..k];
          assert a[k + 1] == a'[k] && b[k + 1] == b'[k];
        }
      }
      if LexicographicallyBefore(a, b) {
        if |a| < |b| && b[..|a|] == a {
          assert b'[..|a'|] == b[..|a|][1..];
        } else {
          var k :| 0 <= k < |a| && k < |b| && a[..k] == b[..k] && a[k] < b[k];
          assert k > 0;
          assert a'[..k - 1] == a[..k][1..];
          assert b'[..k - 1] == b[..k][1..];
          assert a'[k - 1] == a[k] && b'[k - 1] == b[k];
        }
      }
    }
  }

  /** A key comes no earlier than any of its prefixes. */
  lemma {:induction false} PrefixIsLessEq(p: string, s: string)
    requires StartsWith(s, p)
    ensures LessEq(p, s)
    decreases |p|
  {
    if |p| > 0 {
      assert StartsWith(s[1..], p[1..]) by {
        assert s[1..][..|p| - 1] == s[..|p|][1..];
      }
      PrefixIsLessEq(p[1..], s[1..]);
      if p[1..] == s[1..] {
        assert p == [p[0]] + p[1..] && s == [s[0]] + s[1..];
      }
    }
  }

  lemma StartsWithOwnPrefix(p: string, s: string)
    ensures StartsWith(p + s, p)
  {
    assert (p + s)[..|p|] == p;
  }

  lemma StartsWithTransitive(s: string, p: string, q: string)
    requires StartsWith(s, p) && StartsWith(p, q)
    ensures StartsWith(s, q)
  {
    assert s[..|q|] == s[..|p|][..|q|];
  }

  lemma {:induction false} StartsWithAppend(s: string, p: string, q: string)
    ensures StartsWith(p + s, p + q) <==> StartsWith(s, q)
  {
    if StartsWith(s, q) {
      assert (p + s)[..|p + q|] == p + s[..|q|];
    }
    if StartsWith(p + s, p + q) {
      assert s[..|q|] == (p + s)[..|p + q|][|p|..];
    }
  }

  /** The half-open range `[p + [c], p + [d])`, `d` the successor of `c`,
      holds exactly the keys that start with `p + [c]`. */
  lemma {:induction false} HalfOpenRangeIsPrefix(p: string, c: char, d: char, key: string)
    requires d as int == c as int + 1
    ensures (LessEq(p + [c], key) && Less(key, p + [d])) <==> StartsWith(key, p + [c])
    decreases |p|
  {
    var lo, hi := p + [c], p + [d];
    if |p| == 0 {
      assert lo == [c] && hi == [d];
      if StartsWith(key, lo) {
        assert key[0] == c;
        if key != lo {
          assert |key| > 1;
          assert Less(lo[1..], key[1..]);
        }
      }
    } else if |key| == 0 {
    } else {
      assert lo[0] == p[0] && hi[0] == p[0];
      assert lo[1..] == p[1..] + [c] && hi[1..] == p[1..] + [d];
      HalfOpenRangeIsPrefix(p[1..], c, d, key[1..]);
      if key[0] == p[0] {
        calc {
          StartsWith(key, lo);
        <==> { assert key == [p[0]] + key[1..]; assert lo == [p[0]] + lo[1..];
               StartsWithAppend(key[1..], [p[0]], lo[1..]); }
          StartsWith(key[1..], lo[1..]);
        }
        if key == lo {
          assert key[1..] == lo[1..];
        }
        if key[1..] == lo[1..] {
          assert key == [key[0]] + key[1..] && lo == [lo[0]] + lo[1..];
        }
      }
    }
  }
}
