/**
 * Go's `strings.Split` and `strings.TrimSpace`, which the CORS middleware
 * calls, on strings taken as sequences of Unicode code points. `Cut`,
 * `Count`, `Join`, `TrimLeft` and `TrimRight` are not called by the server:
 * `Split` and `TrimSpace` are built from them, and the properties of the
 * server's strings are stated with them.
 */
module GoStrings {

  import opened Wrappers

  /** Go's `unicode.IsSpace`: the code points with the Unicode White_Space property. */
  predicate IsSpace(c: char)
  {
    || ('\t' <= c <= '\r')
    || c == ' '
    || c == '\U{85}'
    || c == '\U{A0}'
    || c == '\U{1680}'
    || ('\U{2000}' <= c <= '\U{200A}')
    || c == '\U{2028}'
    || c == '\U{2029}'
    || c == '\U{202F}'
    || c == '\U{205F}'
    || c == '\U{3000}'
  }

  ghost predicate AllSpace(s: string)
  {
    forall k :: 0 <= k < |s| ==> IsSpace(s[k])
  }

  /** Neither the first nor the last code point is white space. */
  predicate Trimmed(s: string)
  {
    s == [] || (!IsSpace(s[0]) && !IsSpace(s[|s| - 1]))
  }

  /** Number of occurrences of `c` in `s` (`strings.Count` with a one-character separator). */
  function Count(s: string, c: char): (n: nat)
    ensures n <= |s|
    ensures n == 0 <==> c !in s
  {
    if s == [] then 0 else (if s[0] == c then 1 else 0) + Count(s[1..], c)
  }

  /** Occurrences in a concatenation add up. */
  lemma {:induction false} CountConcat(a: string, b: string, c: char)
    ensures Count(a + b, c) == Count(a, c) + Count(b, c)
  {
    if a == [] {
      assert a + b == b;
    } else {
      CountConcat(a[1..], b, c);
      assert (a + b)[0] == a[0] && (a + b)[1..] == a[1..] + b;
    }
  }

  /**
   * `strings.Cut(s, [sep])`: what precedes the first `sep` and what follows
   * it, or `None` when `sep` does not occur.
   */
  function Cut(s: string, sep: char): (r: Option<(string, string)>)
    ensures r.None? <==> sep !in s
    ensures r.Some? ==> s == r.value.0 + [sep] + r.value.1 && sep !in r.value.0
  {
    if s == [] then None
    else if s[0] == sep then Some(([], s[1..]))
    else
      match Cut(s[1..], sep)
      case None => None
      case Some(p) => Some(([s[0]] + p.0, p.1))
  }

  /** Cutting `a + [sep] + b` recovers `a` and `b` when `a` has no `sep`. */
  lemma {:induction false} CutConcat(a: string, b: string, sep: char)
    requires sep !in a
    ensures Cut(a + [sep] + b, sep) == Some((a, b))
  {
    var s := a + [sep] + b;
    if a == [] {
      assert s == [sep] + b && s[1..] == b;
    } else {
      CutConcat(a[1..], b, sep);
      assert s[1..] == a[1..] + [sep] + b;
      assert [a[0]] + a[1..] == a;
    }
  }

  /**
   * `strings.Split(s, [sep])`: the runs of `s` between occurrences of `sep`,
   * in order, found by cutting at the first `sep` again and again; the empty
   * string gives `[""]`.
   */
  function Split(s: string, sep: char): (parts: seq<string>)
    ensures |parts| >= 1
    decreases |s|
  {
    match Cut(s, sep)
    case None => [s]
    case Some(p) => [p.0] + Split(p.1, sep)
  }

  /** A split has one piece more than the input has separators. */
  lemma {:induction false} SplitCount(s: string, sep: char)
    ensures |Split(s, sep)| == Count(s, sep) + 1
    decreases |s|
  {
    match Cut(s, sep)
    case None =>
    case Some(p) =>
      SplitCount(p.1, sep);
      CountConcat(p.0 + [sep], p.1, sep);
      CountConcat(p.0, [sep], sep);
  }

  /** No piece of a split contains the separator. */
  lemma {:induction false} SplitPiecesLackSeparator(s: string, sep: char)
    ensures forall k :: 0 <= k < |Split(s, sep)| ==> sep !in Split(s, sep)[k]
    decreases |s|
  {
    match Cut(s, sep)
    case None =>
    case Some(p) => SplitPiecesLackSeparator(p.1, sep);
  }

  /** A run without the separator is one piece. */
  lemma SplitWithoutSeparator(s: string, sep: char)
    requires sep !in s
    ensures Split(s, sep) == [s]
  {
  }

  /** `strings.Join(parts, [sep])`. */
  function Join(parts: seq<string>, sep: char): string
  {
    if |parts| == 0 then ""
    else if |parts| == 1 then parts[0]
    else parts[0] + [sep] + Join(parts[1..], sep)
  }

  /** Joining one piece more in front adds that piece and a separator. */
  lemma JoinCons(x: string, parts: seq<string>, sep: char)
    requires |parts| >= 1
    ensures Join([x] + parts, sep) == x + [sep] + Join(parts, sep)
  {
    assert ([x] + parts)[1..] == parts;
  }

  /** Joining one piece more at the end adds a separator and that piece. */
  lemma {:induction false} JoinSnoc(parts: seq<string>, x: string, sep: char)
    requires |parts| >= 1
    ensures Join(parts + [x], sep) == Join(parts, sep) + [sep] + x
  {
    if |parts| == 1 {
      assert parts + [x] == [parts[0]] + [x];
      JoinCons(parts[0], [x], sep);
    } else {
      JoinSnoc(parts[1..], x, sep);
      assert parts + [x] == [parts[0]] + (parts[1..] + [x]);
      JoinCons(parts[0], parts[1..] + [x], sep);
      assert parts == [parts[0]] + parts[1..];
      JoinCons(parts[0], parts[1..], sep);
    }
  }

  /** Joining the pieces of a split with the same separator gives back the input. */
  lemma {:induction false} JoinSplit(s: string, sep: char)
    ensures Join(Split(s, sep), sep) == s
    decreases |s|
  {
    match Cut(s, sep)
    case None =>
    case Some(p) =>
      JoinSplit(p.1, sep);
      JoinCons(p.0, Split(p.1, sep), sep);
  }

  /** Splitting a join of separator-free pieces gives back the pieces. */
  lemma {:induction false} SplitJoin(parts: seq<string>, sep: char)
    requires |parts| >= 1
    requires forall k :: 0 <= k < |parts| ==> sep !in parts[k]
    ensures Split(Join(parts, sep), sep) == parts
  {
    if |parts| == 1 {
      SplitWithoutSeparator(parts[0], sep);
    } else {
      var tail := Join(parts[1..], sep);
      SplitJoin(parts[1..], sep);
      CutConcat(parts[0], tail, sep);
      assert parts == [parts[0]] + parts[1..];
    }
  }

  /** `strings.TrimLeft(s, white space)`: a suffix of `s` that does not start with white space. */
  function TrimLeft(s: string): (r: string)
    ensures |r| <= |s| && r == s[|s| - |r|..]
    ensures r == [] || !IsSpace(r[0])
  {
    if s != [] && IsSpace(s[0]) then TrimLeft(s[1..]) else s
  }

  /** `strings.TrimRight(s, white space)`: a prefix of `s` that does not end with white space. */
  function TrimRight(s: string): (r: string)
    ensures |r| <= |s| && r == s[..|r|]
    ensures r == [] || !IsSpace(r[|r| - 1])
  {
    if s != [] && IsSpace(s[|s| - 1]) then TrimRight(s[..|s| - 1]) else s
  }

  /** `TrimLeft` cuts off only white space. */
  lemma {:induction false} TrimLeftCutsSpace(s: string)
    ensures AllSpace(s[..|s| - |TrimLeft(s)|])
  {
    if s != [] && IsSpace(s[0]) {
      var r := TrimLeft(s[1..]);
      TrimLeftCutsSpace(s[1..]);
      assert s[..|s| - |r|] == [s[0]] + s[1..][..|s| - 1 - |r|];
    }
  }

  /** `TrimRight` cuts off only white space. */
  lemma {:induction false} TrimRightCutsSpace(s: string)
    ensures AllSpace(s[|TrimRight(s)|..])
  {
    if s != [] && IsSpace(s[|s| - 1]) {
      var r := TrimRight(s[..|s| - 1]);
      TrimRightCutsSpace(s[..|s| - 1]);
      assert s[|r|..] == s[..|s| - 1][|r|..] + [s[|s| - 1]];
    }
  }

  /** `strings.TrimSpace`: `s` without its leading and trailing white space. */
  function TrimSpace(s: string): (r: string)
    ensures Trimmed(r)
    ensures |r| <= |s|
  {
    TrimRight(TrimLeft(s))
  }

  /**
   * What `TrimSpace` keeps is a slice of its input with only white space
   * before and after it. Together with `Trimmed`, this determines the result.
   */
  lemma TrimSpaceSlice(s: string)
    ensures exists i | 0 <= i <= |s| - |TrimSpace(s)| ::
      TrimSpace(s) == s[i..i + |TrimSpace(s)|] && AllSpace(s[..i]) && AllSpace(s[i + |TrimSpace(s)|..])
  {
    var l := TrimLeft(s);
    var r := TrimRight(l);
    var i := |s| - |l|;
    TrimLeftCutsSpace(s);
    TrimRightCutsSpace(l);
    assert l == s[i..];
    assert r == l[..|r|] == s[i..i + |r|];
    assert s[i + |r|..] == l[|r|..];
  }

  /** Trimming cannot bring in a character the input does not have. */
  lemma TrimSpaceKeepsAbsent(s: string, c: char)
    requires c !in s
    ensures c !in TrimSpace(s)
  {
    var r := TrimSpace(s);
    var l := TrimLeft(s);
    var i := |s| - |l|;
    assert r == l[..|r|] == s[i..i + |r|];
    forall k | 0 <= k < |r|
      ensures r[k] != c
    {
      assert r[k] == s[i + k];
    }
  }

  /** A string that is already trimmed is left alone. */
  lemma TrimSpaceOfTrimmed(s: string)
    requires Trimmed(s)
    ensures TrimSpace(s) == s
  {
  }

  /** Trimming twice is trimming once. */
  lemma TrimSpaceIdempotent(s: string)
    ensures TrimSpace(TrimSpace(s)) == TrimSpace(s)
  {
    TrimSpaceOfTrimmed(TrimSpace(s));
  }

}
