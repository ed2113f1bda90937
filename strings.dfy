/** The part of Go's strings package that the handlers use to take a URL
    path apart: Split on a one-character separator, HasPrefix, Contains. */
module Strings {

  /** strings.Split(s, string(sep)): the pieces between separators, so that
      n separators give n + 1 pieces, some of them possibly empty. */
  function Split(s: string, sep: char): (parts: seq<string>)
    ensures |parts| >= 1
    ensures forall i :: 0 <= i < |parts| ==> sep !in parts[i]
    decreases |s|
  {
    if |s| == 0 then [""]
    else
      var rest := Split(s[1..], sep);
      if s[0] == sep then [""] + rest
      else [[s[0]] + rest[0]] + rest[1..]
  }

  /** strings.Join(parts, string(sep)), the inverse of Split. */
  function Join(parts: seq<string>, sep: char): string
    requires |parts| >= 1
  {
    if |parts| == 1 then parts[0]
    else parts[0] + [sep] + Join(parts[1..], sep)
  }

  function Last<T>(xs: seq<T>): T
    requires |xs| >= 1
  {
    xs[|xs| - 1]
  }

  /** strings.HasPrefix. */
  predicate HasPrefix(s: string, prefix: string) {
    |prefix| <= |s| && s[..|prefix|] == prefix
  }

  /** strings.Contains: sub occurs somewhere in s. */
  predicate Contains(s: string, sub: string)
    decreases |s|
  {
    HasPrefix(s, sub) || (|s| > 0 && Contains(s[1..], sub))
  }

  /** Joining the pieces that Split produced gives back the original string. */
  lemma {:induction false} JoinSplit(s: string, sep: char)
    ensures Join(Split(s, sep), sep) == s
    decreases |s|
  {
    if |s| > 0 {
      var rest := Split(s[1..], sep);
      JoinSplit(s[1..], sep);
      if s[0] == sep {
        assert Split(s, sep)[1..] == rest;
      } else if |rest| == 1 {
        assert Join(Split(s, sep), sep) == [s[0]] + rest[0];
      } else {
        var parts := Split(s, sep);
        assert parts[1..] == rest[1..];
        assert Join(parts, sep) == [s[0]] + rest[0] + [sep] + Join(rest[1..], sep);
      }
    }
  }

  /** A string without separators is a single piece. */
  lemma {:induction false} SplitNoSep(s: string, sep: char)
    requires sep !in s
    ensures Split(s, sep) == [s]
    decreases |s|
  {
    if |s| > 0 {
      SplitNoSep(s[1..], sep);
      assert [s[0]] + s[1..] == s;
    }
  }

  /** Splitting is a homomorphism over a separator: the pieces of
      a + sep + b are the pieces of a followed by the pieces of b. */
  lemma {:induction false} SplitAround(a: string, sep: char, b: string)
    ensures Split(a + [sep] + b, sep) == Split(a, sep) + Split(b, sep)
    decreases |a|
  {
    var s := a + [sep] + b;
    if |a| == 0 {
      assert s[1..] == b;
    } else {
      assert s[1..] == a[1..] + [sep] + b;
      SplitAround(a[1..], sep, b);
    }
  }

  /** A rooted single segment, such as "/journals", splits into an empty
      piece and the segment. */
  lemma SplitRooted(a: string, sep: char)
    requires sep !in a
    ensures Split([sep] + a, sep) == ["", a]
  {
    SplitAround("", sep, a);
    assert [] + [sep] + a == [sep] + a;
    SplitNoSep(a, sep);
  }

  /** Two rooted segments, such as "/journals/7", split into an empty piece
      and the two segments. */
  lemma SplitRootedPair(a: string, sep: char, b: string)
    requires sep !in a && sep !in b
    ensures Split([sep] + a + [sep] + b, sep) == ["", a, b]
  {
    SplitAround([sep] + a, sep, b);
    SplitRooted(a, sep);
    SplitNoSep(b, sep);
  }

  /** The last piece of prefix + sep + tail is tail itself when tail holds no
      separator: how an id is cut from the end of a URL path. */
  lemma LastPiece(prefix: string, sep: char, tail: string)
    requires sep !in tail
    ensures Last(Split(prefix + [sep] + tail, sep)) == tail
    ensures |Split(prefix + [sep] + tail, sep)| == |Split(prefix, sep)| + 1
  {
    SplitAround(prefix, sep, tail);
    SplitNoSep(tail, sep);
  }

  /** Whatever starts a suffix of s occurs in s. */
  lemma {:induction false} ContainsInside(front: string, back: string, sub: string)
    requires HasPrefix(back, sub)
    ensures Contains(front + back, sub)
    decreases |front|
  {
    if |front| > 0 {
      assert (front + back)[1..] == front[1..] + back;
      ContainsInside(front[1..], back, sub);
    } else {
      assert front + back == back;
    }
  }
}
