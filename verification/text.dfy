/** The handful of Python `str` operations the cleaner relies on, written out exactly:
    `isspace`, `strip()`, `split()`-then-join, `startswith`, `'\n'.join` and
    `readlines()` on a file opened in text mode. */
module Text {
  import Seqs

  /** Python's `str.isspace` for one character: the ASCII separators, the
      information separators U+001C..U+001F and the Unicode space characters. */
  predicate IsSpace(c: char)
  {
    || ('\t' <= c <= '\r')
    || ('\U{1C}' <= c <= '\U{1F}')
    || c == ' ' || c == '\U{85}' || c == '\U{A0}' || c == '\U{1680}'
    || ('\U{2000}' <= c <= '\U{200A}')
    || c == '\U{2028}' || c == '\U{2029}' || c == '\U{202F}' || c == '\U{205F}' || c == '\U{3000}'
  }

  /** `s.lstrip()`: the suffix of `s` left after dropping its leading whitespace. */
  function TrimStart(s: string): (r: string)
    ensures |r| <= |s| && r == s[|s| - |r|..]
    ensures forall k :: 0 <= k < |s| - |r| ==> IsSpace(s[k])
    ensures r == [] || !IsSpace(r[0])
    decreases |s|
  {
    if s != [] && IsSpace(s[0]) then TrimStart(s[1..]) else s
  }

  /** `s.rstrip()`: the prefix of `s` left after dropping its trailing whitespace. */
  function TrimEnd(s: string): (r: string)
    ensures |r| <= |s| && r == s[..|r|]
    ensures forall k :: |r| <= k < |s| ==> IsSpace(s[k])
    ensures r == [] || !IsSpace(r[|r| - 1])
    decreases |s|
  {
    if s != [] && IsSpace(s[|s| - 1]) then TrimEnd(s[..|s| - 1]) else s
  }

  /** `s.strip()`. */
  function Strip(s: string): string
  {
    TrimEnd(TrimStart(s))
  }

  /** `s` has no leading and no trailing whitespace. */
  predicate Stripped(s: string)
  {
    s == [] || (!IsSpace(s[0]) && !IsSpace(s[|s| - 1]))
  }

  /** `strip()` leaves exactly the stripped strings unchanged. */
  lemma StripFixesExactlyStripped(s: string)
    ensures Strip(s) == s <==> Stripped(s)
  {
    if Stripped(s) && s != [] {
      assert TrimStart(s) == s;
    }
  }

  /** Stripping a line read back with its terminator gives the original sentence. */
  lemma StripTerminated(s: string)
    requires Stripped(s)
    ensures Strip(s + "\n") == s
  {
    var t := s + "\n";
    if s == [] {
      assert TrimStart(t) == [];
    } else {
      assert TrimStart(t) == t;
      assert t[..|t| - 1] == s;
      assert TrimEnd(t) == TrimEnd(s);
    }
  }

  /** `''.join(s.split())`: every non-whitespace character of `s`, in order. */
  function RemoveSpaces(s: string): string
  {
    Seqs.Filter(s, c => !IsSpace(c))
  }

  /** `s.startswith(prefix)`. */
  predicate StartsWith(s: string, prefix: string)
  {
    |prefix| <= |s| && s[..|prefix|] == prefix
  }

  /** `t` occurs in `s` starting at position `i`. */
  predicate OccursAt(s: string, t: string, i: nat)
  {
    i + |t| <= |s| && s[i..i + |t|] == t
  }

  /** `t` occurs somewhere in `s` (Python's `t in s`). */
  predicate Contains(s: string, t: string)
  {
    exists i: nat :: i <= |s| && OccursAt(s, t, i)
  }

  /** Number of occurrences of `c` in `s`. */
  function CountChar(s: string, c: char): (n: nat)
    ensures n == 0 <==> c !in s
    ensures n <= |s|
    decreases |s|
  {
    if s == [] then 0 else (if s[0] == c then 1 else 0) + CountChar(s[1..], c)
  }

  lemma {:induction false} CountCharAppend(a: string, b: string, c: char)
    ensures CountChar(a + b, c) == CountChar(a, c) + CountChar(b, c)
    decreases |a|
  {
    if a == [] {
      assert a + b == b;
    } else {
      assert (a + b)[1..] == a[1..] + b;
      CountCharAppend(a[1..], b, c);
    }
  }

  /** Position of the first `c` in `s`, or `|s|` when there is none. */
  function FindChar(s: string, c: char): (i: nat)
    ensures i <= |s|
    ensures c !in s[..i]
    ensures i < |s| ==> s[i] == c
    decreases |s|
  {
    if s == [] then 0 else if s[0] == c then 0 else 1 + FindChar(s[1..], c)
  }

  /** `sep.join(xs)`. */
  function Join(sep: string, xs: seq<string>): string
    decreases |xs|
  {
    if |xs| == 0 then "" else if |xs| == 1 then xs[0] else xs[0] + sep + Join(sep, xs[1..])
  }

  /** Every string followed by a newline: what `writelines(f'{s}\n' for s in xs)` emits, line by line. */
  function Terminate(xs: seq<string>): (ys: seq<string>)
    ensures |ys| == |xs|
    ensures forall i :: 0 <= i < |xs| ==> ys[i] == xs[i] + "\n"
    decreases |xs|
  {
    if xs == [] then [] else [xs[0] + "\n"] + Terminate(xs[1..])
  }

  /** Concatenation of strings. */
  function Concat(xs: seq<string>): string
    decreases |xs|
  {
    if xs == [] then "" else xs[0] + Concat(xs[1..])
  }

  lemma {:induction false} ConcatAppend(xs: seq<string>, ys: seq<string>)
    ensures Concat(xs + ys) == Concat(xs) + Concat(ys)
    decreases |xs|
  {
    if xs == [] {
      assert xs + ys == ys;
    } else {
      assert (xs + ys)[1..] == xs[1..] + ys;
      ConcatAppend(xs[1..], ys);
    }
  }

  /** For a non-empty list, `'\n'.join(xs) + '\n'` is each string followed by a newline. */
  lemma {:induction false} JoinThenNewline(xs: seq<string>)
    requires |xs| > 0
    ensures Join("\n", xs) + "\n" == Concat(Terminate(xs))
    decreases |xs|
  {
    if |xs| > 1 {
      JoinThenNewline(xs[1..]);
      assert Terminate(xs)[1..] == Terminate(xs[1..]);
    }
  }

  /** No string of the list contains a line break: neither a newline nor a carriage
      return, which Python's universal-newline reading also ends a line at. */
  predicate NoNewlines(xs: seq<string>)
  {
    forall i :: 0 <= i < |xs| ==> '\n' !in xs[i] && '\r' !in xs[i]
  }

  /** Joining two lists free of line breaks gives one. */
  lemma NoNewlinesAppend(xs: seq<string>, ys: seq<string>)
    requires NoNewlines(xs) && NoNewlines(ys)
    ensures NoNewlines(xs + ys)
  {
    forall i | 0 <= i < |xs + ys| ensures '\n' !in (xs + ys)[i] && '\r' !in (xs + ys)[i] {
      if i >= |xs| {
        assert (xs + ys)[i] == ys[i - |xs|];
      }
    }
  }

  /** Length of the first line of `s`, its terminating newline included. */
  function LineEnd(s: string): (n: nat)
    ensures n <= |s|
    ensures n == 0 <==> s == []
    ensures forall k :: 0 <= k < n - 1 ==> s[k] != '\n'
    ensures n < |s| ==> s[n - 1] == '\n'
    decreases |s|
  {
    if s == [] then 0 else if s[0] == '\n' then 1 else 1 + LineEnd(s[1..])
  }

  /** A non-empty piece of text with a newline at most at its end; it ends in a newline
      unless it is the last line of its file. */
  predicate IsLine(line: string, last: bool)
  {
    && line != []
    && '\n' !in line[..|line| - 1]
    && (last || line[|line| - 1] == '\n')
  }

  /** `readlines()`: the lines of `s`, each keeping its terminating newline; only the
      last line may lack one. */
  function ReadLines(s: string): (lines: seq<string>)
    ensures Concat(lines) == s
    decreases |s|
  {
    if s == [] then []
    else
      var n := LineEnd(s);
      assert s == s[..n] + s[n..];
      [s[..n]] + ReadLines(s[n..])
  }

  /** Every line `readlines()` returns is non-empty, holds a newline at most at its end,
      and ends in one unless it is the last. */
  lemma {:induction false} ReadLinesShape(s: string)
    ensures forall i :: 0 <= i < |ReadLines(s)| ==> IsLine(ReadLines(s)[i], i == |ReadLines(s)| - 1)
    decreases |s|
  {
    if s != [] {
      var n := LineEnd(s);
      var lines := ReadLines(s);
      var rest := ReadLines(s[n..]);
      ReadLinesShape(s[n..]);
      assert lines == [s[..n]] + rest;
      forall i | 0 <= i < |lines| ensures IsLine(lines[i], i == |lines| - 1) {
        if i == 0 {
          assert rest == [] <==> s[n..] == [];
          assert lines[0] == s[..n];
        } else {
          assert lines[i] == rest[i - 1];
        }
      }
    }
  }

  /** A line without a newline, followed by one, is read back as a single line. */
  lemma ReadLinesCons(l: string, rest: string)
    requires '\n' !in l
    ensures ReadLines(l + "\n" + rest) == [l + "\n"] + ReadLines(rest)
  {
    var s := l + "\n" + rest;
    var n := LineEnd(s);
    assert s[|l|] == '\n';
    assert n == |l| + 1;
    assert s[..n] == l + "\n";
    assert s[n..] == rest;
  }

  /** Reading back lines written with a newline each recovers them, newline included. */
  lemma {:induction false} ReadLinesTerminated(xs: seq<string>, rest: string)
    requires NoNewlines(xs)
    ensures ReadLines(Concat(Terminate(xs)) + rest) == Terminate(xs) + ReadLines(rest)
    decreases |xs|
  {
    if xs != [] {
      var t := Terminate(xs);
      var t' := Terminate(xs[1..]);
      assert t == [xs[0] + "\n"] + t';
      assert Concat(t) == (xs[0] + "\n") + Concat(t');
      var tail := Concat(t') + rest;
      assert Concat(t) + rest == xs[0] + "\n" + tail;
      calc {
        ReadLines(Concat(t) + rest);
        ReadLines(xs[0] + "\n" + tail);
        { ReadLinesCons(xs[0], tail); }
        [xs[0] + "\n"] + ReadLines(tail);
        { ReadLinesTerminated(xs[1..], rest); }
        [xs[0] + "\n"] + (t' + ReadLines(rest));
        t + ReadLines(rest);
      }
    } else {
      assert Terminate(xs) == [];
      assert Concat(Terminate(xs)) + rest == rest;
    }
  }

  /** `line.rstrip('\n')` for one trailing newline: the line without its terminator. */
  function Chomp(line: string): (r: string)
    ensures line == r + "\n" || (line == r && (line == [] || line[|line| - 1] != '\n'))
  {
    if line != [] && line[|line| - 1] == '\n' then line[..|line| - 1] else line
  }

  lemma {:induction false} ChompTerminated(xs: seq<string>)
    ensures Seqs.Map(Terminate(xs), Chomp) == xs
    decreases |xs|
  {
    if xs != [] {
      assert Terminate(xs)[1..] == Terminate(xs[1..]);
      ChompTerminated(xs[1..]);
      assert (xs[0] + "\n")[..|xs[0]|] == xs[0];
    }
  }
}
