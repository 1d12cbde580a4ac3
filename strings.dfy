/** The Python 2 `str` methods the analysis scripts rely on, as functions on `seq<char>`. */
module Strings {

  /** Whitespace as `str.split()` and `str.strip()` see it in Python 2. */
  predicate IsSpace(c: char)
  {
    c == ' ' || c == '\t' || c == '\n' || c == '\r' || c as int == 11 || c as int == 12
  }

  predicate NoSpace(s: string)
  {
    forall i | 0 <= i < |s| :: !IsSpace(s[i])
  }

  function Spaces(n: nat): (r: string)
    ensures |r| == n
  {
    seq(n, _ => ' ')
  }

  /** `"{:>w}".format(s)`: `s` right-aligned in a field of width `w`, never cut. */
  function PadLeft(s: string, w: nat): (r: string)
  {
    if |s| < w then Spaces(w - |s|) + s else s
  }

  lemma {:induction false} PadLeftShape(s: string, w: nat)
    ensures |PadLeft(s, w)| == if |s| < w then w else |s|
    ensures PadLeft(s, w)[|PadLeft(s, w)| - |s|..] == s
    ensures forall i | 0 <= i < |PadLeft(s, w)| - |s| :: PadLeft(s, w)[i] == ' '
  {
  }

  /** Padding adds only spaces: a character other than a space is in the padded text only if it is in the text. */
  lemma {:induction false} PadLeftAvoids(s: string, w: nat, c: char)
    requires c !in s && c != ' '
    ensures c !in PadLeft(s, w)
  {
    if |s| < w {
      var sp := Spaces(w - |s|);
      assert c !in sp;
    }
  }

  /** `sep.join(parts)`. */
  function Join(sep: string, parts: seq<string>): string
  {
    if |parts| == 0 then ""
    else if |parts| == 1 then parts[0]
    else parts[0] + sep + Join(sep, parts[1..])
  }

  /** `s.split(c)` for a one-character separator: always at least one part. */
  function Split(s: string, c: char): (parts: seq<string>)
    ensures |parts| > 0
    decreases |s|
  {
    if |s| == 0 then [""]
    else
      var rest := Split(s[1..], c);
      if s[0] == c then [""] + rest else [[s[0]] + rest[0]] + rest[1..]
  }

  /** Splitting and re-joining with the same separator gives the string back. */
  lemma {:induction false} JoinSplit(s: string, c: char)
    ensures Join([c], Split(s, c)) == s
    ensures forall p | p in Split(s, c) :: c !in p
    decreases |s|
  {
    if |s| > 0 {
      var rest := Split(s[1..], c);
      JoinSplit(s[1..], c);
      if s[0] == c {
        assert Split(s, c) == [""] + rest;
        assert ([""] + rest)[1..] == rest;
        assert Join([c], [""] + rest) == "" + [c] + Join([c], rest);
        assert s == [s[0]] + s[1..];
      } else {
        var parts := Split(s, c);
        assert parts == [[s[0]] + rest[0]] + rest[1..];
        if |rest| == 1 {
          assert parts == [[s[0]] + rest[0]];
        } else {
          assert parts[1..] == rest[1..];
          assert Join([c], rest) == rest[0] + [c] + Join([c], rest[1..]);
        }
        assert s == [s[0]] + s[1..];
        forall p | p in parts
          ensures c !in p
        {
          if p == [s[0]] + rest[0] {
            assert rest[0] in rest;
          } else {
            assert p in rest;
          }
        }
      }
    }
  }

  /** A string without the separator is a single part. */
  lemma {:induction false} SplitNoSeparator(s: string, c: char)
    requires c !in s
    ensures Split(s, c) == [s]
    decreases |s|
  {
    if |s| > 0 {
      SplitNoSeparator(s[1..], c);
      assert [s[0]] + s[1..] == s;
    }
  }

  /** A leading part without the separator, then the separator, splits off as the first part. */
  lemma {:induction false} SplitAfterPart(a: string, c: char, rest: string)
    requires c !in a
    ensures Split(a + [c] + rest, c) == [a] + Split(rest, c)
    decreases |a|
  {
    var s := a + [c] + rest;
    if |a| == 0 {
      assert s == [c] + rest;
      assert s[1..] == rest;
    } else {
      assert s[1..] == a[1..] + [c] + rest;
      SplitAfterPart(a[1..], c, rest);
      assert [a[0]] + a[1..] == a;
    }
  }

  /** A trailing part without the separator, after the separator, splits off as the last part. */
  lemma {:induction false} SplitBeforeLast(x: string, c: char, b: string)
    requires c !in b
    ensures Split(x + [c] + b, c) == Split(x, c) + [b]
    decreases |x|
  {
    var s := x + [c] + b;
    if |x| == 0 {
      assert s == [c] + b;
      assert s[1..] == b;
      SplitNoSeparator(b, c);
    } else {
      assert s[1..] == x[1..] + [c] + b;
      SplitBeforeLast(x[1..], c, b);
      var rest := Split(x[1..], c);
      assert Split(s[1..], c) == rest + [b];
      assert (rest + [b])[0] == rest[0];
      assert (rest + [b])[1..] == rest[1..] + [b];
    }
  }

  /** `s.split()`: the maximal runs of non-whitespace characters, in order. */
  function Words(s: string): (ws: seq<string>)
    ensures forall w | w in ws :: |w| > 0 && NoSpace(w)
    ensures |s| > 0 && !IsSpace(s[0]) ==> |ws| > 0 && ws[0][0] == s[0]
    decreases |s|
  {
    if |s| == 0 then []
    else
      var rest := Words(s[1..]);
      if IsSpace(s[0]) then rest
      else if |s| > 1 && !IsSpace(s[1]) then [[s[0]] + rest[0]] + rest[1..]
      else [[s[0]]] + rest
  }

  /** `s.rstrip(c)`: drops every trailing `c`. */
  function RStripChar(s: string, c: char): (r: string)
    ensures |r| <= |s| && r == s[..|r|]
    ensures |r| == 0 || r[|r| - 1] != c
    ensures forall i | |r| <= i < |s| :: s[i] == c
  {
    if |s| > 0 && s[|s| - 1] == c then RStripChar(s[..|s| - 1], c) else s
  }

  /** `s.lstrip()` */
  function LStrip(s: string): (r: string)
  {
    if |s| > 0 && IsSpace(s[0]) then LStrip(s[1..]) else s
  }

  /** `s.rstrip()` */
  function RStrip(s: string): (r: string)
  {
    if |s| > 0 && IsSpace(s[|s| - 1]) then RStrip(s[..|s| - 1]) else s
  }

  /** `s.strip()` */
  function Strip(s: string): string
  {
    RStrip(LStrip(s))
  }

  predicate StartsWith(s: string, p: string)
  {
    |p| <= |s| && s[..|p|] == p
  }

  /** `sub in s` */
  predicate Contains(s: string, sub: string)
    decreases |s|
  {
    StartsWith(s, sub) || (|s| > 0 && Contains(s[1..], sub))
  }

  /** `s * n` */
  function Repeat(s: string, n: int): (r: string)
    decreases if n < 0 then 0 else n
  {
    if n <= 0 then "" else s + Repeat(s, n - 1)
  }

  /** Number of occurrences of `c` in `s` (`s.count(c)`). */
  function Count(s: string, c: char): nat
  {
    if |s| == 0 then 0 else (if s[0] == c then 1 else 0) + Count(s[1..], c)
  }

  lemma {:induction false} CountAppend(a: string, b: string, c: char)
    ensures Count(a + b, c) == Count(a, c) + Count(b, c)
  {
    if |a| == 0 {
      assert a + b == b;
    } else {
      assert (a + b)[1..] == a[1..] + b;
      CountAppend(a[1..], b, c);
    }
  }

  /** A string without `c` holds no occurrence of it. */
  lemma {:induction false} CountAbsent(s: string, c: char)
    requires c !in s
    ensures Count(s, c) == 0
  {
    if |s| > 0 {
      assert forall k | 0 <= k < |s| - 1 :: s[1..][k] == s[k + 1];
      CountAbsent(s[1..], c);
    }
  }

  /** Lines of text, each ended by a newline (`"".join(l + "\n" for l in lines)`). */
  function Unlines(lines: seq<string>): string
  {
    if |lines| == 0 then "" else Unlines(lines[..|lines| - 1]) + lines[|lines| - 1] + "\n"
  }

  /** One more line at the end of the text. */
  lemma {:induction false} UnlinesAppend(lines: seq<string>, l: string)
    ensures Unlines(lines + [l]) == Unlines(lines) + l + "\n"
  {
    assert (lines + [l])[..|lines|] == lines;
  }

  /** The text of the first lines grows by one line at a time. */
  lemma {:induction false} UnlinesPrefix(ls: seq<string>, r: nat)
    requires r < |ls|
    ensures Unlines(ls[..r + 1]) == Unlines(ls[..r]) + ls[r] + "\n"
  {
    assert ls[..r + 1] == ls[..r] + [ls[r]];
    UnlinesAppend(ls[..r], ls[r]);
  }

  /** Lines that hold no newline read back from their text, whatever follows it. */
  lemma {:induction false} UnlinesSplit(lines: seq<string>, z: string)
    requires forall k | 0 <= k < |lines| :: '\n' !in lines[k]
    ensures Split(Unlines(lines) + z, '\n') == lines + Split(z, '\n')
  {
    if |lines| == 0 {
      assert Unlines(lines) + z == z;
    } else {
      var n := |lines| - 1;
      var init, last := lines[..n], lines[n];
      var front, rest := Unlines(init), last + ['\n'] + z;
      assert Unlines(lines) == front + last + "\n";
      assert Unlines(lines) + z == front + rest;
      assert forall k | 0 <= k < |init| :: init[k] == lines[k];
      UnlinesSplit(init, rest);
      SplitAfterPart(last, '\n', z);
      var tail := Split(z, '\n');
      assert lines == init + [last];
      assert init + ([last] + tail) == lines + tail;
    }
  }

  /** The text of lines that hold no newline has one newline per line. */
  lemma {:induction false} UnlinesCount(lines: seq<string>)
    requires forall k | 0 <= k < |lines| :: '\n' !in lines[k]
    ensures Count(Unlines(lines), '\n') == |lines|
  {
    if |lines| > 0 {
      var n := |lines| - 1;
      UnlinesCount(lines[..n]);
      CountAbsent(lines[n], '\n');
      CountAppend(Unlines(lines[..n]), lines[n], '\n');
      CountAppend(Unlines(lines[..n]) + lines[n], "\n", '\n');
    }
  }
}
