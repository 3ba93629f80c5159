/** Python 2's `str.strip()` and `str.split(sep)` on strings, as the
    customer file parser uses them. */
module PyStrings {

  /** The characters Python 2's `str.strip()` removes from a byte string:
      space, tab, line feed, carriage return, vertical tab and form feed. */
  predicate IsSpace(c: char) {
    c == ' ' || c == '\t' || c == '\n' || c == '\r' || c == '\U{000B}' || c == '\U{000C}'
  }

  /** Every character of `s` is whitespace. */
  predicate AllSpace(s: string) {
    forall k :: 0 <= k < |s| ==> IsSpace(s[k])
  }

  /** `s` neither starts nor ends with whitespace. */
  predicate Trimmed(s: string) {
    s == [] || (!IsSpace(s[0]) && !IsSpace(s[|s| - 1]))
  }

  /** `s.lstrip()`: `s` without its leading whitespace. */
  function StripLeft(s: string): string {
    if s != [] && IsSpace(s[0]) then StripLeft(s[1..]) else s
  }

  /** `s.rstrip()`: `s` without its trailing whitespace. */
  function StripRight(s: string): string {
    if s != [] && IsSpace(s[|s| - 1]) then StripRight(s[..|s| - 1]) else s
  }

  /** `s.strip()`: `s` without its leading and trailing whitespace. */
  function Strip(s: string): string {
    StripRight(StripLeft(s))
  }

  /** Left-stripping keeps a suffix, drops only whitespace, and the result
      does not start with whitespace. */
  lemma {:induction false} StripLeftShape(s: string)
    ensures |StripLeft(s)| <= |s| && StripLeft(s) == s[|s| - |StripLeft(s)|..]
    ensures AllSpace(s[..|s| - |StripLeft(s)|])
    ensures StripLeft(s) == [] || !IsSpace(StripLeft(s)[0])
  {
    if s != [] && IsSpace(s[0]) {
      StripLeftShape(s[1..]);
      assert s == [s[0]] + s[1..];
    }
  }

  /** Right-stripping keeps a prefix, drops only whitespace, and the result
      does not end with whitespace. */
  lemma {:induction false} StripRightShape(s: string)
    ensures |StripRight(s)| <= |s| && StripRight(s) == s[..|StripRight(s)|]
    ensures AllSpace(s[|StripRight(s)|..])
    ensures StripRight(s) == [] || !IsSpace(StripRight(s)[|StripRight(s)| - 1])
  {
    if s != [] && IsSpace(s[|s| - 1]) {
      var n := |s| - 1;
      StripRightShape(s[..n]);
      assert s == s[..n] + [s[n]];
    }
  }

  /** A stripped string is no longer than the original and neither starts
      nor ends with whitespace. */
  lemma StripTrimmed(s: string)
    ensures |Strip(s)| <= |s|
    ensures Trimmed(Strip(s))
  {
    var l := StripLeft(s);
    StripLeftShape(s);
    StripRightShape(l);
    var r := StripRight(l);
    if r != [] {
      assert r[0] == l[0];
    }
  }

  /** Stripping removes exactly the whitespace padding around a trimmed
      string and nothing inside it. */
  lemma StripPadded(pre: string, t: string, post: string)
    requires AllSpace(pre) && AllSpace(post) && Trimmed(t)
    ensures Strip(pre + t + post) == t
  {
    assert pre + t + post == pre + (t + post);
    if t == [] {
      assert AllSpace(pre + post);
      assert (pre + post) + [] == pre + t + post;
      StripLeftPadded(pre + post, []);
    } else {
      StripLeftPadded(pre, t + post);
      StripRightPadded(t, post);
    }
  }

  /** Dropping whitespace in front of a string that does not start with
      whitespace gives back that string. */
  lemma {:induction false} StripLeftPadded(pre: string, u: string)
    requires AllSpace(pre) && (u == [] || !IsSpace(u[0]))
    ensures StripLeft(pre + u) == u
  {
    if pre != [] {
      assert (pre + u)[1..] == pre[1..] + u;
      StripLeftPadded(pre[1..], u);
    } else {
      assert pre + u == u;
    }
  }

  /** Dropping whitespace at the end of a string that does not end with
      whitespace gives back that string. */
  lemma {:induction false} StripRightPadded(u: string, post: string)
    requires AllSpace(post) && (u == [] || !IsSpace(u[|u| - 1]))
    ensures StripRight(u + post) == u
  {
    if post != [] {
      var n := |post| - 1;
      assert (u + post)[..|u + post| - 1] == u + post[..n];
      StripRightPadded(u, post[..n]);
    } else {
      assert u + post == u;
    }
  }

  /** `s.split(sep)`: the pieces of `s` between occurrences of `sep`. There is
      always one piece more than there are separators, so the empty string
      splits into one empty piece. */
  function Split(s: string, sep: char): (r: seq<string>)
    ensures |r| >= 1
    ensures forall k :: 0 <= k < |r| ==> sep !in r[k]
  {
    if s == [] then [[]]
    else
      var rest := Split(s[1..], sep);
      if s[0] == sep then [[]] + rest else [[s[0]] + rest[0]] + rest[1..]
  }

  /** There is one piece more than there are separators. */
  lemma {:induction false} SplitCount(s: string, sep: char)
    ensures |Split(s, sep)| == multiset(s)[sep] + 1
  {
    if s != [] {
      SplitCount(s[1..], sep);
      assert s == [s[0]] + s[1..];
    }
  }

  /** `sep.join(parts)`. */
  function Join(parts: seq<string>, sep: char): string
    requires |parts| >= 1
  {
    if |parts| == 1 then parts[0] else parts[0] + [sep] + Join(parts[1..], sep)
  }

  /** Splitting loses nothing: joining the pieces gives back the string. */
  lemma {:induction false} JoinSplit(s: string, sep: char)
    ensures Join(Split(s, sep), sep) == s
  {
    if s != [] {
      var tail := s[1..];
      JoinSplit(tail, sep);
      var rest := Split(tail, sep);
      if s[0] == sep {
        assert Split(s, sep) == [[]] + rest;
        assert Join([[]] + rest, sep) == [] + [sep] + Join(rest, sep);
      } else if |rest| == 1 {
        assert Split(s, sep) == [[s[0]] + rest[0]];
      } else {
        var first := [s[0]] + rest[0];
        assert Split(s, sep) == [first] + rest[1..];
        assert ([first] + rest[1..])[1..] == rest[1..];
        assert Join(rest, sep) == rest[0] + [sep] + Join(rest[1..], sep);
        assert Join([first] + rest[1..], sep) == first + [sep] + Join(rest[1..], sep);
        assert first + [sep] + Join(rest[1..], sep) == [s[0]] + Join(rest, sep);
      }
      assert s == [s[0]] + tail;
    }
  }

  /** Splitting a join of separator-free pieces recovers exactly those pieces,
      whitespace and all. */
  lemma {:induction false} SplitJoin(parts: seq<string>, sep: char)
    requires |parts| >= 1
    requires forall k :: 0 <= k < |parts| ==> sep !in parts[k]
    ensures Split(Join(parts, sep), sep) == parts
  {
    if |parts| == 1 {
      SplitPiece(parts[0], [], sep);
      assert parts[0] + [] == parts[0];
      assert parts == [parts[0]];
    } else {
      SplitJoin(parts[1..], sep);
      var tail := Join(parts[1..], sep);
      assert Join(parts, sep) == parts[0] + ([sep] + tail);
      SplitSep(tail, sep);
      SplitPiece(parts[0], [sep] + tail, sep);
      assert Split([sep] + tail, sep)[0] == [];
      assert Split([sep] + tail, sep)[1..] == parts[1..];
      assert parts[0] + [] == parts[0];
      assert parts == [parts[0]] + parts[1..];
    }
  }

  /** A separator in front adds one empty piece. */
  lemma SplitSep(s: string, sep: char)
    ensures Split([sep] + s, sep) == [[]] + Split(s, sep)
  {
  }

  /** A separator-free prefix is glued onto the first piece. */
  lemma {:induction false} SplitPiece(p: string, s: string, sep: char)
    requires sep !in p
    ensures Split(p + s, sep) == [p + Split(s, sep)[0]] + Split(s, sep)[1..]
  {
    if p != [] {
      assert (p + s)[1..] == p[1..] + s;
      SplitPiece(p[1..], s, sep);
      var r := Split(s, sep);
      assert [p[0]] + (p[1..] + r[0]) == p + r[0];
    } else {
      var r := Split(s, sep);
      assert p + s == s && p + r[0] == r[0];
      assert r == [r[0]] + r[1..];
    }
  }
}
