/** Plain string utilities: joining with a separator, splitting at a
    character (as `String.split` does), and line-terminated output (as a
    sequence of `println` calls produces). */
module Text {

  /** The elements of `xs` with `sep` between consecutive ones. */
  function Join(xs: seq<string>, sep: string): string
  {
    if |xs| == 0 then ""
    else if |xs| == 1 then xs[0]
    else xs[0] + sep + Join(xs[1..], sep)
  }

  /** Every piece of `s` between occurrences of `c`, empty pieces included
      (`String.split` with a negative limit). */
  function SplitAll(s: string, c: char): (parts: seq<string>)
    ensures |parts| >= 1
  {
    if |s| == 0 then [""]
    else
      var rest := SplitAll(s[1..], c);
      if s[0] == c then [""] + rest
      else [[s[0]] + rest[0]] + rest[1..]
  }

  /** Removes empty strings from the end of `xs`. */
  function DropTrailingEmpty(xs: seq<string>): (ys: seq<string>)
    ensures |ys| <= |xs| && ys == xs[..|ys|]
    ensures |ys| == 0 || ys[|ys| - 1] != ""
  {
    if |xs| > 0 && xs[|xs| - 1] == "" then DropTrailingEmpty(xs[..|xs| - 1]) else xs
  }

  /** `s.split(c)` in Java for a single, non-meta character `c`: a string
      without `c` comes back whole; otherwise the pieces, with trailing empty
      pieces removed. */
  function JavaSplit(s: string, c: char): seq<string>
  {
    if c !in s then [s] else DropTrailingEmpty(SplitAll(s, c))
  }

  /** Each line followed by a newline, as consecutive `println` calls print them. */
  function Unlines(lines: seq<string>): string
  {
    if |lines| == 0 then "" else lines[0] + "\n" + Unlines(lines[1..])
  }

  lemma {:induction false} SplitWithoutSeparator(s: string, c: char)
    requires c !in s
    ensures SplitAll(s, c) == [s]
  {
    if |s| > 0 {
      assert c !in s[1..];
      SplitWithoutSeparator(s[1..], c);
      assert [s[0]] + s[1..] == s;
    }
  }

  lemma {:induction false} SplitAtFirstSeparator(x: string, c: char, y: string)
    requires c !in x
    ensures SplitAll(x + [c] + y, c) == [x] + SplitAll(y, c)
  {
    var s := x + [c] + y;
    if |x| == 0 {
      assert s == [c] + y;
      assert s[1..] == y;
    } else {
      assert s[1..] == x[1..] + [c] + y;
      assert c !in x[1..];
      SplitAtFirstSeparator(x[1..], c, y);
      assert [x[0]] + x[1..] == x;
    }
  }

  /** Splitting at `c` undoes joining with `c`, when no element holds `c`. */
  lemma {:induction false} SplitJoin(xs: seq<string>, c: char)
    requires |xs| >= 1
    requires forall i :: 0 <= i < |xs| ==> c !in xs[i]
    ensures SplitAll(Join(xs, [c]), c) == xs
  {
    if |xs| == 1 {
      SplitWithoutSeparator(xs[0], c);
    } else {
      SplitJoin(xs[1..], c);
      SplitAtFirstSeparator(xs[0], c, Join(xs[1..], [c]));
      assert xs == [xs[0]] + xs[1..];
    }
  }

  lemma {:induction false} JoinAppend(a: seq<string>, b: seq<string>, sep: string)
    requires |a| >= 1 && |b| >= 1
    ensures Join(a + b, sep) == Join(a, sep) + sep + Join(b, sep)
  {
    if |a| == 1 {
      assert (a + b)[1..] == b;
    } else {
      assert (a + b)[1..] == a[1..] + b;
      JoinAppend(a[1..], b, sep);
    }
  }

  lemma {:induction false} JoinContains(xs: seq<string>, c: char)
    requires |xs| >= 2
    ensures c in Join(xs, [c])
  {
    var s := Join(xs, [c]);
    assert s == xs[0] + [c] + Join(xs[1..], [c]);
    assert s[|xs[0]|] == c;
  }

  /** Java's `split` recovers a list joined with a separator it never
      contains, provided no element is empty. */
  lemma JavaSplitJoin(xs: seq<string>, c: char)
    requires |xs| >= 1
    requires forall i :: 0 <= i < |xs| ==> c !in xs[i] && xs[i] != ""
    ensures JavaSplit(Join(xs, [c]), c) == xs
  {
    if |xs| == 1 {
      assert Join(xs, [c]) == xs[0];
    } else {
      JoinContains(xs, c);
      SplitJoin(xs, c);
    }
  }

  lemma {:induction false} UnlinesAppend(a: seq<string>, b: seq<string>)
    ensures Unlines(a + b) == Unlines(a) + Unlines(b)
  {
    if |a| > 0 {
      assert (a + b)[1..] == a[1..] + b;
      UnlinesAppend(a[1..], b);
    } else {
      assert a + b == b;
    }
  }

  /** Splitting at newlines text that begins with an unterminated `head`
      followed by terminated lines: `head` shares a line with the first of
      them, and a final empty piece follows the last newline. */
  lemma {:induction false} SplitUnlines(head: string, lines: seq<string>)
    requires '\n' !in head
    requires forall i :: 0 <= i < |lines| ==> '\n' !in lines[i]
    ensures |lines| == 0 ==> SplitAll(head + Unlines(lines), '\n') == [head]
    ensures |lines| > 0 ==>
      SplitAll(head + Unlines(lines), '\n') == [head + lines[0]] + lines[1..] + [""]
    decreases |lines|
  {
    if |lines| == 0 {
      assert head + Unlines(lines) == head;
      SplitWithoutSeparator(head, '\n');
    } else {
      var rest := Unlines(lines[1..]);
      assert head + Unlines(lines) == (head + lines[0]) + ['\n'] + rest;
      assert '\n' !in head + lines[0];
      SplitAtFirstSeparator(head + lines[0], '\n', rest);
      SplitUnlines("", lines[1..]);
      assert "" + rest == rest;
      if |lines| > 1 {
        assert "" + lines[1] == lines[1];
        assert [lines[1]] + lines[2..] == lines[1..];
      }
    }
  }
}
