/** The few string operations of Python the core relies on: str.split with a
    separator, str.join, str.strip and the "empty or None is false" test. */
module Text {
  import opened Wrappers

  /** The characters Python 2's str.strip() removes. */
  predicate IsSpace(c: char) {
    c == ' ' || c == '\t' || c == '\n' || c == '\r' || c == '\U{B}' || c == '\U{C}'
  }

  /** Python truthiness of a None-able string: neither None nor "". */
  predicate Truthy(s: Option<string>) {
    s.Some? && s.value != ""
  }

  /** `s.split(d)`: the pieces between the leftmost non-overlapping occurrences of `d`. */
  function Split(s: string, d: string): (parts: seq<string>)
    requires |d| > 0
    ensures |parts| >= 1
    decreases |s|
  {
    if |s| < |d| then [s]
    else if s[..|d|] == d then [""] + Split(s[|d|..], d)
    else
      var rest := Split(s[1..], d);
      [[s[0]] + rest[0]] + rest[1..]
  }

  /** `d.join(parts)`. */
  function Join(parts: seq<string>, d: string): (s: string)
  {
    if |parts| == 0 then ""
    else if |parts| == 1 then parts[0]
    else parts[0] + d + Join(parts[1..], d)
  }

  /** Joining a piece in front of the other pieces. */
  lemma JoinCons(p: string, rest: seq<string>, d: string)
    requires |rest| >= 1
    ensures Join([p] + rest, d) == p + d + Join(rest, d)
  {
    assert ([p] + rest)[1..] == rest;
  }

  /** Joining after extending the first piece by one character. */
  lemma JoinExtendFirst(c: char, rest: seq<string>, d: string)
    requires |rest| >= 1
    ensures Join([[c] + rest[0]] + rest[1..], d) == [c] + Join(rest, d)
  {
    var parts := [[c] + rest[0]] + rest[1..];
    if |rest| > 1 {
      assert parts[1..] == rest[1..];
    }
  }

  /** Splitting and joining again gives back the string that was split. */
  lemma {:induction false} JoinSplit(s: string, d: string)
    requires |d| > 0
    ensures Join(Split(s, d), d) == s
    decreases |s|
  {
    if |s| < |d| {
    } else if s[..|d|] == d {
      var rest := Split(s[|d|..], d);
      assert Split(s, d) == [""] + rest;
      JoinSplit(s[|d|..], d);
      JoinCons("", rest, d);
      assert Join([""] + rest, d) == "" + d + s[|d|..];
      assert s == s[..|d|] + s[|d|..];
    } else {
      var rest := Split(s[1..], d);
      assert Split(s, d) == [[s[0]] + rest[0]] + rest[1..];
      JoinSplit(s[1..], d);
      JoinExtendFirst(s[0], rest, d);
      assert s == [s[0]] + s[1..];
    }
  }

  /** A string in which the first character of the separator never occurs is one piece. */
  lemma {:induction false} SplitWithoutSeparator(s: string, d: string)
    requires |d| > 0 && d[0] !in s
    ensures Split(s, d) == [s]
    decreases |s|
  {
    if |s| >= |d| {
      assert s[..|d|][0] == s[0];
      SplitWithoutSeparator(s[1..], d);
      assert [s[0]] + s[1..] == s;
    }
  }

  /** A piece free of the separator's first character, then the separator, splits off first. */
  lemma {:induction false} SplitAfterPiece(a: string, d: string, b: string)
    requires |d| > 0 && d[0] !in a
    ensures Split(a + d + b, d) == [a] + Split(b, d)
    decreases |a|
  {
    var s := a + d + b;
    if |a| == 0 {
      assert s[..|d|] == d;
      assert s[|d|..] == b;
    } else {
      assert s[..|d|][0] == a[0];
      assert s[1..] == a[1..] + d + b;
      SplitAfterPiece(a[1..], d, b);
      assert [a[0]] + a[1..] == a;
    }
  }

  /** Drops leading whitespace. */
  function TrimLeft(s: string): (r: string)
    ensures |r| <= |s| && r == s[|s| - |r|..]
    ensures forall i :: 0 <= i < |s| - |r| ==> IsSpace(s[i])
    ensures r == [] || !IsSpace(r[0])
  {
    if |s| > 0 && IsSpace(s[0]) then TrimLeft(s[1..]) else s
  }

  /** Drops trailing whitespace. */
  function TrimRight(s: string): (r: string)
    ensures |r| <= |s| && r == s[..|r|]
    ensures forall i :: |r| <= i < |s| ==> IsSpace(s[i])
    ensures r == [] || !IsSpace(r[|r| - 1])
  {
    if |s| > 0 && IsSpace(s[|s| - 1]) then TrimRight(s[..|s| - 1]) else s
  }

  /** Trailing whitespace after a piece that does not end in whitespace is
      the suffix's own. */
  lemma {:induction false} TrimRightAfter(a: string, n: string)
    requires a == [] || !IsSpace(a[|a| - 1])
    ensures TrimRight(a + n) == a + TrimRight(n)
    decreases |n|
  {
    if |n| > 0 && IsSpace(n[|n| - 1]) {
      assert (a + n)[..|a + n| - 1] == a + n[..|n| - 1];
      TrimRightAfter(a, n[..|n| - 1]);
    } else if |n| == 0 {
      assert a + n == a;
    }
  }

  /** `s.strip()`. */
  function Strip(s: string): (r: string)
  {
    TrimLeft(TrimRight(s))
  }

  /** With a one-character separator, splitting around one occurrence of it
      splits the two sides independently. */
  lemma {:induction false} SplitAround(x: string, c: char, y: string)
    ensures Split(x + [c] + y, [c]) == Split(x, [c]) + Split(y, [c])
    decreases |x|
  {
    var s := x + [c] + y;
    if |x| == 0 {
      assert s[..1] == [c] && s[1..] == y;
    } else {
      assert s[1..] == x[1..] + [c] + y;
      SplitAround(x[1..], c, y);
      assert s[..1] == [x[0]];
    }
  }

  /** A string with no whitespace at either end is left alone by strip(). */
  lemma StripUnchanged(s: string)
    requires s == [] || (!IsSpace(s[0]) && !IsSpace(s[|s| - 1]))
    ensures Strip(s) == s
  {
  }

  /** strip() leaves nothing to strip. */
  lemma StripIdempotent(s: string)
    ensures Strip(Strip(s)) == Strip(s)
  {
    var r := Strip(s);
    var t := TrimRight(s);
    if r != [] {
      assert r == t[|t| - |r|..];
      assert r[|r| - 1] == t[|t| - 1];
    }
    StripUnchanged(r);
  }
}
