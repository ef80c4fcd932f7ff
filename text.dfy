/** Splitting text at a separator character, as Python's `str.split(c)` does:
    empty pieces are kept, so a text with k separators has k + 1 pieces. */
module Text {

  /** The index of the first occurrence of `c` in `s`. */
  function IndexOf(s: string, c: char): (i: nat)
    requires c in s
    ensures i < |s| && s[i] == c && c !in s[..i]
  {
    if s[0] == c then 0
    else
      var j := IndexOf(s[1..], c);
      assert s[..j + 1] == [s[0]] + s[1..][..j];
      j + 1
  }

  /** The pieces of `s` between occurrences of `c`. */
  function Split(s: string, c: char): (parts: seq<string>)
    ensures |parts| >= 1
    decreases |s|
  {
    if c !in s then [s]
    else
      var i := IndexOf(s, c);
      [s[..i]] + Split(s[i + 1..], c)
  }

  /** The pieces concatenated back, separators dropped. */
  function Concat(parts: seq<string>): (s: string)
  {
    if parts == [] then "" else Concat(parts[..|parts| - 1]) + parts[|parts| - 1]
  }

  lemma SplitNoSeparator(s: string, c: char)
    requires c !in s
    ensures Split(s, c) == [s]
  {
  }

  /** A piece free of the separator, followed by the separator, is the first piece. */
  lemma SplitAfterPiece(a: string, b: string, c: char)
    requires c !in a
    ensures Split(a + [c] + b, c) == [a] + Split(b, c)
  {
    var s := a + [c] + b;
    assert s[|a|] == c;
    assert s[..|a|] == a;
    var i := IndexOf(s, c);
    assert s[..i] == a;
    assert s[i + 1..] == b;
  }

  /** Splitting distributes over a separator. */
  lemma {:induction false} SplitConcat(a: string, b: string, c: char)
    ensures Split(a + [c] + b, c) == Split(a, c) + Split(b, c)
    decreases |a|
  {
    if c !in a {
      SplitAfterPiece(a, b, c);
      SplitNoSeparator(a, c);
    } else {
      var i := IndexOf(a, c);
      var a1, a2 := a[..i], a[i + 1..];
      assert a == a1 + [c] + a2;
      var rest := a2 + [c] + b;
      assert a + [c] + b == a1 + [c] + rest;
      calc {
        Split(a + [c] + b, c);
        Split(a1 + [c] + rest, c);
        { SplitAfterPiece(a1, rest, c); }
        [a1] + Split(rest, c);
        { SplitConcat(a2, b, c); }
        [a1] + (Split(a2, c) + Split(b, c));
        { SplitAfterPiece(a1, a2, c); }
        Split(a, c) + Split(b, c);
      }
    }
  }

  /** A last piece free of the separator is the last piece. */
  lemma SplitBeforePiece(s: string, p: string, c: char)
    requires c !in p
    ensures Split(s + [c] + p, c) == Split(s, c) + [p]
  {
    SplitConcat(s, p, c);
    SplitNoSeparator(p, c);
  }

  lemma ConcatSnoc(parts: seq<string>, p: string)
    ensures Concat(parts + [p]) == Concat(parts) + p
  {
    assert (parts + [p])[..|parts|] == parts;
  }

  /** Each line followed by a newline, as text written line by line. */
  function JoinLines(lines: seq<string>): (s: string)
  {
    if lines == [] then "" else lines[0] + "\n" + JoinLines(lines[1..])
  }

  /** Newline-free lines written one after another split back into those lines. */
  lemma {:induction false} SplitJoinLines(lines: seq<string>, rest: string)
    requires forall i :: 0 <= i < |lines| ==> '\n' !in lines[i]
    ensures Split(JoinLines(lines) + rest, '\n') == lines + Split(rest, '\n')
    decreases |lines|
  {
    if lines == [] {
      assert JoinLines(lines) + rest == rest;
    } else {
      var head, tail := lines[0], lines[1..];
      var after := JoinLines(tail) + rest;
      assert JoinLines(lines) == head + "\n" + JoinLines(tail);
      assert JoinLines(lines) + rest == head + ['\n'] + after;
      assert forall i :: 0 <= i < |tail| ==> tail[i] == lines[i + 1];
      calc {
        Split(JoinLines(lines) + rest, '\n');
        Split(head + ['\n'] + after, '\n');
        { SplitAfterPiece(head, after, '\n'); }
        [head] + Split(after, '\n');
        { SplitJoinLines(tail, rest); }
        [head] + (tail + Split(rest, '\n'));
        { assert lines == [head] + tail; }
        lines + Split(rest, '\n');
      }
    }
  }
}
