/** The JavaScript string built-ins the application relies on, over `seq<char>`:
    truthiness, `trim`, `split` on one character, `join`, and `pop` of the last piece. */
module Text {
  import opened Wrappers

  function Min(a: int, b: int): int { if a <= b then a else b }

  /** A `string | null | undefined` value is truthy when it is present and not empty. */
  predicate Truthy(s: Option<string>) {
    s.Some? && s.value != ""
  }

  /** The characters `String.prototype.trim` removes: ECMAScript WhiteSpace and LineTerminator. */
  predicate IsTrimmable(c: char) {
    || c == '\t' || c == '\n' || c == '\U{000B}' || c == '\U{000C}' || c == '\r'
    || c == ' ' || c == '\U{00A0}' || c == '\U{1680}'
    || ('\U{2000}' <= c <= '\U{200A}')
    || c == '\U{2028}' || c == '\U{2029}' || c == '\U{202F}' || c == '\U{205F}'
    || c == '\U{3000}' || c == '\U{FEFF}'
  }

  function TrimStart(s: string): string {
    if |s| > 0 && IsTrimmable(s[0]) then TrimStart(s[1..]) else s
  }

  function TrimEnd(s: string): string {
    if |s| > 0 && IsTrimmable(s[|s| - 1]) then TrimEnd(s[..|s| - 1]) else s
  }

  /** `s.trim()`. */
  function Trim(s: string): string {
    TrimEnd(TrimStart(s))
  }

  /** `TrimStart` removes a prefix made only of white space, and what is left does not start
      with white space. */
  lemma {:induction false} TrimStartShape(s: string)
    ensures |TrimStart(s)| <= |s| && TrimStart(s) == s[|s| - |TrimStart(s)|..]
    ensures forall k :: 0 <= k < |s| - |TrimStart(s)| ==> IsTrimmable(s[k])
    ensures TrimStart(s) == [] || !IsTrimmable(TrimStart(s)[0])
  {
    if |s| > 0 && IsTrimmable(s[0]) {
      TrimStartShape(s[1..]);
      forall k | 0 < k < |s| - |TrimStart(s)| ensures IsTrimmable(s[k]) {
        assert s[k] == s[1..][k - 1];
      }
    }
  }

  /** `TrimEnd` removes a suffix made only of white space, and what is left does not end with
      white space. */
  lemma {:induction false} TrimEndShape(s: string)
    ensures |TrimEnd(s)| <= |s| && TrimEnd(s) == s[..|TrimEnd(s)|]
    ensures forall k :: |TrimEnd(s)| <= k < |s| ==> IsTrimmable(s[k])
    ensures TrimEnd(s) == [] || !IsTrimmable(TrimEnd(s)[|TrimEnd(s)| - 1])
  {
    if |s| > 0 && IsTrimmable(s[|s| - 1]) {
      TrimEndShape(s[..|s| - 1]);
      forall k | |TrimEnd(s)| <= k < |s| - 1 ensures IsTrimmable(s[k]) {
        assert s[k] == s[..|s| - 1][k];
      }
    }
  }

  /** `trim` keeps one contiguous piece of its input that neither starts nor ends with white
      space, and everything it removes on either side is white space. */
  lemma TrimShape(s: string)
    ensures var r := Trim(s); var i := |s| - |TrimStart(s)|;
            && 0 <= i && i + |r| <= |s| && r == s[i..i + |r|]
            && (forall k :: 0 <= k < i ==> IsTrimmable(s[k]))
            && (forall k :: i + |r| <= k < |s| ==> IsTrimmable(s[k]))
            && (r == [] || (!IsTrimmable(r[0]) && !IsTrimmable(r[|r| - 1])))
  {
    var t := TrimStart(s);
    TrimStartShape(s);
    TrimEndShape(t);
    var r := TrimEnd(t);
    var i := |s| - |t|;
    assert r == s[i..i + |r|];
    forall k | i + |r| <= k < |s| ensures IsTrimmable(s[k]) {
      assert s[k] == t[k - i];
    }
    if r != [] {
      assert t != [];
      if |r| < |t| {
        assert r[0] == t[0];
      } else {
        assert r == t;
      }
    }
  }

  /** Trimming is idempotent: a string with no white space at either end is its own trim. */
  lemma TrimFixed(s: string)
    requires s == [] || (!IsTrimmable(s[0]) && !IsTrimmable(s[|s| - 1]))
    ensures Trim(s) == s
  {
  }

  /** A leading blank is removed by `trim`. */
  lemma TrimDropsLeadingBlank(x: string)
    ensures Trim(" " + x) == Trim(x)
  {
    assert (" " + x)[1..] == x;
  }

  /** `s.split(sep)` for a one-character separator: the pieces between separators, never empty. */
  function Split(s: string, sep: char): (r: seq<string>)
    ensures |r| >= 1
  {
    if s == [] then [""]
    else
      var rest := Split(s[1..], sep);
      if s[0] == sep then [""] + rest else [[s[0]] + rest[0]] + rest[1..]
  }

  /** A leading character other than the separator joins the first piece. */
  lemma SplitLeadingChar(c: char, s: string, sep: char)
    requires c != sep
    ensures Split([c] + s, sep) == [[c] + Split(s, sep)[0]] + Split(s, sep)[1..]
  {
    assert ([c] + s)[1..] == s;
  }

  /** No piece of a split holds the separator. */
  lemma {:induction false} SplitPiecesLackSeparator(s: string, sep: char)
    ensures forall i :: 0 <= i < |Split(s, sep)| ==> sep !in Split(s, sep)[i]
  {
    if s != [] {
      SplitPiecesLackSeparator(s[1..], sep);
      var rest := Split(s[1..], sep);
      if s[0] != sep {
        var r := Split(s, sep);
        assert r[0] == [s[0]] + rest[0];
        forall i | 0 <= i < |r| ensures sep !in r[i] {
          if i > 0 {
            assert r[i] == rest[i];
          }
        }
      }
    }
  }

  /** `xs.join(sep)`. */
  function Join(xs: seq<string>, sep: string): string
  {
    if |xs| == 0 then "" else if |xs| == 1 then xs[0] else xs[0] + sep + Join(xs[1..], sep)
  }

  /** `split` is the inverse of `join` with the same separator. */
  lemma {:induction false} JoinSplit(s: string, sep: char)
    ensures Join(Split(s, sep), [sep]) == s
  {
    if s != [] {
      var rest := Split(s[1..], sep);
      JoinSplit(s[1..], sep);
      if s[0] == sep {
        assert Split(s, sep) == [""] + rest;
        assert s == [sep] + s[1..];
      } else {
        var r := Split(s, sep);
        assert r == [[s[0]] + rest[0]] + rest[1..];
        if |rest| == 1 {
          assert Join(r, [sep]) == [s[0]] + rest[0];
          assert s == [s[0]] + s[1..];
        } else {
          assert r[1..] == rest[1..];
          assert Join(rest, [sep]) == rest[0] + [sep] + Join(rest[1..], [sep]);
          assert s == [s[0]] + s[1..];
        }
      }
    }
  }

  /** The last piece of a join follows the last separator. */
  lemma {:induction false} JoinLast(xs: seq<string>, sep: string)
    requires |xs| >= 2
    ensures Join(xs, sep) == Join(xs[..|xs| - 1], sep) + sep + xs[|xs| - 1]
    decreases |xs|
  {
    if |xs| > 2 {
      JoinLast(xs[1..], sep);
      assert xs[1..][..|xs| - 2] == xs[..|xs| - 1][1..];
    }
  }

  /** Text holding the separator splits into at least two pieces. */
  lemma {:induction false} SplitAtLeastTwo(s: string, sep: char)
    requires sep in s
    ensures |Split(s, sep)| >= 2
  {
    if s[0] != sep {
      assert sep in s[1..] by {
        var j :| 0 <= j < |s| && s[j] == sep;
        assert s[1..][j - 1] == sep;
      }
      SplitAtLeastTwo(s[1..], sep);
    }
  }

  /** A join of two or more pieces ends with the separator and the last piece. */
  lemma JoinEndsWithLast(xs: seq<string>, sep: char)
    requires |xs| >= 2
    ensures var p := xs[|xs| - 1]; var j := Join(xs, [sep]);
            |p| < |j| && j[|j| - |p| - 1..] == [sep] + p
  {
    JoinLast(xs, [sep]);
    var front := Join(xs[..|xs| - 1], [sep]);
    var tail := [sep] + xs[|xs| - 1];
    assert Join(xs, [sep]) == front + tail;
    assert (front + tail)[|front|..] == tail;
  }

  /** When the text holds the separator, the last piece of its split is what follows the
      last separator: the text ends with the separator and that piece. */
  lemma LastPieceIsSuffix(s: string, sep: char)
    requires sep in s
    ensures var p := Last(Split(s, sep)); |p| < |s| && s[|s| - |p| - 1..] == [sep] + p
  {
    SplitAtLeastTwo(s, sep);
    JoinSplit(s, sep);
    JoinEndsWithLast(Split(s, sep), sep);
  }

  /** A piece free of the separator comes back as one piece. */
  lemma {:induction false} SplitWithoutSeparator(s: string, sep: char)
    requires sep !in s
    ensures Split(s, sep) == [s]
  {
    if s != [] {
      SplitWithoutSeparator(s[1..], sep);
      assert [s[0]] + s[1..] == s;
    }
  }

  /** Splitting `a + sep + b` yields `a` followed by the pieces of `b`, when `a` holds no separator. */
  lemma {:induction false} SplitAtSeparator(a: string, b: string, sep: char)
    requires sep !in a
    ensures Split(a + [sep] + b, sep) == [a] + Split(b, sep)
  {
    var s := a + [sep] + b;
    if a == [] {
      assert s[1..] == b;
    } else {
      assert s[1..] == a[1..] + [sep] + b;
      SplitAtSeparator(a[1..], b, sep);
      assert [a[0]] + a[1..] == a;
    }
  }

  /** `xs.pop()` on a non-empty array: its last element. */
  function Last(xs: seq<string>): string
    requires |xs| >= 1
  {
    xs[|xs| - 1]
  }

  function Clamp(i: int, n: nat): (k: nat)
    ensures k <= n
    ensures 0 <= i <= n ==> k == i
  {
    if i < 0 then 0 else if i > n then n else i
  }

  /** `s.substring(start, end)`: both ends clamped to the string, swapped when reversed. */
  function Substring(s: string, start: int, end: int): (r: string)
    ensures |r| <= |s|
    ensures 0 <= start <= end <= |s| ==> r == s[start..end]
    ensures 0 <= end < start <= |s| ==> r == s[end..start]
    ensures start < 0 && 0 <= end <= |s| ==> r == s[..end]
    ensures 0 <= start <= |s| < end ==> r == s[start..]
  {
    var a := Clamp(start, |s|);
    var b := Clamp(end, |s|);
    if a <= b then s[a..b] else s[b..a]
  }

  /** `s.slice(start, end)`: a negative end counts from the back; a reversed range is empty. */
  function Slice(s: string, start: int, end: int): (r: string)
    ensures |r| <= |s|
    ensures 0 <= start <= end <= |s| ==> r == s[start..end]
    ensures 0 <= end < start ==> r == ""
    ensures 0 < -start <= |s| && end == |s| ==> r == s[|s| + start..]
    ensures -start > |s| && end == |s| ==> r == s
    ensures 0 <= start && 0 < -end <= |s| && start <= |s| + end ==> r == s[start..|s| + end]
    ensures 0 <= start <= |s| < end ==> r == s[start..]
  {
    var a := if start < 0 then Clamp(|s| + start, |s|) else Clamp(start, |s|);
    var b := if end < 0 then Clamp(|s| + end, |s|) else Clamp(end, |s|);
    if a <= b then s[a..b] else ""
  }
}
