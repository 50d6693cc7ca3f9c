/**
 Character-level string operations with the behaviour of the three JavaScript
 built-ins the settings tab relies on: `String.prototype.split` with a
 one-character separator, `String.prototype.trim` and `Array.prototype.join`.
 */
module Text {

  /** The characters `trim` removes: ECMAScript WhiteSpace and LineTerminator. */
  predicate IsWhitespace(c: char) {
    || c == '\t' || c == '\n' || c == '\U{000B}' || c == '\U{000C}' || c == '\r'
    || c == ' ' || c == '\U{00A0}' || c == '\U{1680}'
    || ('\U{2000}' <= c <= '\U{200A}')
    || c == '\U{2028}' || c == '\U{2029}' || c == '\U{202F}' || c == '\U{205F}'
    || c == '\U{3000}' || c == '\U{FEFF}'
  }

  predicate AllWhitespace(s: string) {
    forall i :: 0 <= i < |s| ==> IsWhitespace(s[i])
  }

  /** Neither end of `s` is whitespace: the shape of everything `trim` returns. */
  predicate IsTrimmed(s: string) {
    |s| == 0 || (!IsWhitespace(s[0]) && !IsWhitespace(s[|s| - 1]))
  }

  /** `s` with its leading whitespace removed. */
  function TrimStart(s: string): (r: string)
    ensures |r| <= |s|
    ensures |r| > 0 ==> !IsWhitespace(r[0])
  {
    if |s| > 0 && IsWhitespace(s[0]) then TrimStart(s[1..]) else s
  }

  /** `TrimStart` keeps a suffix and cuts away only whitespace. */
  lemma {:induction false} TrimStartCutsWhitespace(s: string)
    ensures TrimStart(s) == s[|s| - |TrimStart(s)|..]
    ensures AllWhitespace(s[..|s| - |TrimStart(s)|])
  {
    if |s| > 0 && IsWhitespace(s[0]) {
      TrimStartCutsWhitespace(s[1..]);
      var n := |s| - |TrimStart(s)|;
      assert s[..n] == [s[0]] + s[1..][..n - 1];
    }
  }

  /** `s` with its trailing whitespace removed. */
  function TrimEnd(s: string): (r: string)
    ensures |r| <= |s|
    ensures |r| > 0 ==> r[0] == s[0] && !IsWhitespace(r[|r| - 1])
  {
    if |s| > 0 && IsWhitespace(s[|s| - 1]) then TrimEnd(s[..|s| - 1]) else s
  }

  /** `TrimEnd` keeps a prefix and cuts away only whitespace. */
  lemma {:induction false} TrimEndCutsWhitespace(s: string)
    ensures TrimEnd(s) == s[..|TrimEnd(s)|]
    ensures AllWhitespace(s[|TrimEnd(s)|..])
  {
    if |s| > 0 && IsWhitespace(s[|s| - 1]) {
      var u := s[..|s| - 1];
      TrimEndCutsWhitespace(u);
      var m := |TrimEnd(s)|;
      assert s[m..] == u[m..] + [s[|s| - 1]];
    }
  }

  /** `s.trim()`: `s` with the whitespace on both ends cut away. */
  function Trim(s: string): (r: string)
    ensures |r| <= |s|
    ensures IsTrimmed(r)
  {
    TrimEnd(TrimStart(s))
  }

  /** What `trim` keeps is a contiguous middle of `s`, and what it cuts away is whitespace. */
  lemma TrimKeepsMiddle(s: string)
    ensures exists i :: 0 <= i <= |s| - |Trim(s)| && Trim(s) == s[i..i + |Trim(s)|]
                        && AllWhitespace(s[..i]) && AllWhitespace(s[i + |Trim(s)|..])
  {
    var t := TrimStart(s);
    var r := TrimEnd(t);
    assert Trim(s) == r;
    var i := |s| - |t|;
    TrimStartCutsWhitespace(s);
    TrimEndCutsWhitespace(t);
    assert t == s[i..];
    SliceOfSuffix(s, i, |r|);
    assert r == s[i..i + |r|];
    assert AllWhitespace(s[i + |r|..]) by {
      assert s[i + |r|..] == t[|r|..];
    }
    assert AllWhitespace(s[..i]);
  }

  /** Trimming cannot bring in a character the string did not hold. */
  lemma TrimKeepsAbsent(s: string, c: char)
    requires c !in s
    ensures c !in Trim(s)
  {
    TrimKeepsMiddle(s);
    var i :| 0 <= i <= |s| - |Trim(s)| && Trim(s) == s[i..i + |Trim(s)|];
    assert forall k :: 0 <= k < |Trim(s)| ==> Trim(s)[k] == s[i + k];
  }

  /** The ends of a suffix are the corresponding slices of the whole. */
  lemma SliceOfSuffix(s: string, i: nat, n: nat)
    requires i + n <= |s|
    ensures s[i..][..n] == s[i..i + n]
    ensures s[i..][n..] == s[i + n..]
  {
  }

  /** Trimming changes a string exactly when one of its ends is whitespace. */
  lemma TrimIsIdentityIffTrimmed(s: string)
    ensures Trim(s) == s <==> IsTrimmed(s)
  {
    if IsTrimmed(s) && |s| > 0 {
      assert TrimStart(s) == s;
      assert TrimEnd(s) == s;
    }
  }

  /** A single leading space in front of a trimmed, non-empty word is all `trim` removes. */
  lemma TrimOneSpace(t: string)
    requires |t| > 1 && t[0] == ' ' && IsTrimmed(t[1..])
    ensures Trim(t) == t[1..]
  {
    var w := t[1..];
    assert TrimStart(t) == TrimStart(w);
    assert TrimStart(w) == w;
    assert TrimEnd(w) == w;
  }

  /**
   `s.split(sep)`: the pieces of `s` between separators, in order. There is
   always at least one piece; the empty string splits into `[""]`.
   */
  function Split(s: string, sep: char): (r: seq<string>)
    ensures |r| >= 1
    ensures forall i :: 0 <= i < |r| ==> sep !in r[i]
  {
    if |s| == 0 then [""]
    else
      var rest := Split(s[1..], sep);
      if s[0] == sep then [""] + rest
      else [[s[0]] + rest[0]] + rest[1..]
  }

  /** `xs.join(sep)`: the elements with one separator between neighbours. */
  function Join(xs: seq<string>, sep: char): string {
    if |xs| == 0 then ""
    else if |xs| == 1 then xs[0]
    else xs[0] + [sep] + Join(xs[1..], sep)
  }

  /**
   The joined text starts with the first element and ends with the last, and
   when no element holds the separator it holds exactly one separator fewer
   than there are elements.
   */
  lemma {:induction false} JoinLayout(xs: seq<string>, sep: char)
    requires |xs| > 0
    ensures xs[0] <= Join(xs, sep)
    ensures |xs[|xs| - 1]| <= |Join(xs, sep)|
    ensures Join(xs, sep)[|Join(xs, sep)| - |xs[|xs| - 1]|..] == xs[|xs| - 1]
    ensures (forall i :: 0 <= i < |xs| ==> sep !in xs[i]) ==> multiset(Join(xs, sep))[sep] == |xs| - 1
  {
    if |xs| > 1 {
      var tail := Join(xs[1..], sep);
      JoinLayout(xs[1..], sep);
      var j := xs[0] + [sep] + tail;
      assert Join(xs, sep) == j;
      assert j[..|xs[0]|] == xs[0];
      assert j[|j| - |tail|..] == tail;
      assert xs[1..][|xs[1..]| - 1] == xs[|xs| - 1];
      assert j[|j| - |xs[|xs| - 1]|..] == tail[|tail| - |xs[|xs| - 1]|..];
      if forall i :: 0 <= i < |xs| ==> sep !in xs[i] {
        assert forall i :: 0 <= i < |xs[1..]| ==> xs[1..][i] == xs[i + 1];
        assert multiset(xs[0])[sep] == 0;
        assert multiset(j) == multiset(xs[0]) + multiset([sep]) + multiset(tail);
      }
    } else {
      if sep !in xs[0] {
        assert multiset(xs[0])[sep] == 0;
      }
    }
  }

  /** Joining the pieces of a split restores the original text. */
  lemma {:induction false} JoinSplit(s: string, sep: char)
    ensures Join(Split(s, sep), sep) == s
  {
    if |s| > 0 {
      var rest := Split(s[1..], sep);
      JoinSplit(s[1..], sep);
      var r := Split(s, sep);
      if s[0] == sep {
        assert r == [""] + rest;
        assert r[1..] == rest;
        assert Join(r, sep) == "" + [sep] + Join(rest, sep);
      } else if |rest| == 1 {
        assert r == [[s[0]] + rest[0]];
        assert Join(rest, sep) == rest[0];
      } else {
        assert r == [[s[0]] + rest[0]] + rest[1..];
        assert r[1..] == rest[1..];
        assert Join(r, sep) == [s[0]] + rest[0] + [sep] + Join(rest[1..], sep);
        assert Join(rest, sep) == rest[0] + [sep] + Join(rest[1..], sep);
      }
      assert s == [s[0]] + s[1..];
    }
  }

  /** A separator-free prefix is split off as one piece. */
  lemma {:induction false} SplitAfterPiece(a: string, t: string, sep: char)
    requires sep !in a
    ensures Split(a + [sep] + t, sep) == [a] + Split(t, sep)
  {
    var s := a + [sep] + t;
    if |a| == 0 {
      assert s == [sep] + t;
      assert s[1..] == t;
    } else {
      assert s[1..] == a[1..] + [sep] + t;
      SplitAfterPiece(a[1..], t, sep);
      assert [s[0]] + a[1..] == a;
    }
  }

  /** A suffix splits at its first separator: the text before it is the first piece. */
  lemma SplitFrom(s: string, i: nat, k: nat, sep: char)
    requires i <= k < |s| && s[k] == sep && sep !in s[i..k]
    ensures Split(s[i..], sep) == [s[i..k]] + Split(s[k + 1..], sep)
  {
    assert s[i..] == s[i..k] + [sep] + s[k + 1..];
    SplitAfterPiece(s[i..k], s[k + 1..], sep);
  }

  /** A separator-free string is a single piece. */
  lemma {:induction false} SplitWithoutSeparator(a: string, sep: char)
    requires sep !in a
    ensures Split(a, sep) == [a]
  {
    if |a| > 0 {
      SplitWithoutSeparator(a[1..], sep);
      assert [a[0]] + a[1..] == a;
    }
  }

  /**
   Splitting a join gives the elements back, provided there is at least one
   element and none of them contains the separator. (The empty list joins to
   `""`, which splits into `[""]`.)
   */
  lemma {:induction false} SplitJoin(xs: seq<string>, sep: char)
    requires |xs| >= 1
    requires forall i :: 0 <= i < |xs| ==> sep !in xs[i]
    ensures Split(Join(xs, sep), sep) == xs
  {
    if |xs| == 1 {
      SplitWithoutSeparator(xs[0], sep);
    } else {
      SplitJoin(xs[1..], sep);
      SplitAfterPiece(xs[0], Join(xs[1..], sep), sep);
      assert [xs[0]] + xs[1..] == xs;
    }
  }
}
