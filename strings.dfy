/**
 * The JavaScript string operations the core relies on: `indexOf`, `includes`,
 * `split` with a non-empty separator, `pop` on the pieces, and `trim`.
 */
module Strings {

  /** `pat` occurs in `s` starting at index `i`. */
  predicate OccursAt(s: string, pat: string, i: int)
  {
    0 <= i && i + |pat| <= |s| && s[i..i + |pat|] == pat
  }

  /** An occurrence inside a prefix of `s` is an occurrence in `s`. */
  lemma OccursInPrefix(s: string, pat: string, n: int, j: int)
    requires 0 <= n <= |s|
    ensures OccursAt(s[..n], pat, j) <==> OccursAt(s, pat, j) && j + |pat| <= n
  {
    if 0 <= j && j + |pat| <= n {
      assert s[..n][j..j + |pat|] == s[j..j + |pat|];
    }
  }

  /** Occurrences in `s[1..]` are those of `s` shifted one place left. */
  lemma OccursInTail(s: string, pat: string, j: int)
    requires |s| > 0 && j >= 0
    ensures OccursAt(s[1..], pat, j) <==> OccursAt(s, pat, j + 1)
  {
    if 0 <= j && j + 1 + |pat| <= |s| {
      assert s[1..][j..j + |pat|] == s[j + 1..j + 1 + |pat|];
    }
  }

  /** A one-character pattern occurs exactly where that character stands. */
  lemma OccursChar(s: string, c: char, i: int)
    ensures OccursAt(s, [c], i) <==> 0 <= i < |s| && s[i] == c
  {
    if 0 <= i < |s| {
      assert s[i..i + 1] == [s[i]];
    }
  }

  /** `s.indexOf(pat)`: the first index at which `pat` occurs (see `IndexOfIsFirst`), or -1. */
  function IndexOf(s: string, pat: string): (r: int)
    ensures r >= -1
    ensures r >= 0 ==> OccursAt(s, pat, r)
    decreases |s|
  {
    if |s| < |pat| then -1
    else if s[..|pat|] == pat then 0
    else
      var r := IndexOf(s[1..], pat);
      if r < 0 then -1
      else
        OccursInTail(s, pat, r);
        r + 1
  }

  /** No occurrence of `pat` starts before the index `IndexOf` returns. */
  lemma {:induction false} IndexOfIsFirst(s: string, pat: string, j: int)
    requires 0 <= j
    requires IndexOf(s, pat) < 0 || j < IndexOf(s, pat)
    ensures !OccursAt(s, pat, j)
    decreases |s|
  {
    if |s| >= |pat| && s[..|pat|] != pat {
      if j == 0 {
        assert s[0..|pat|] == s[..|pat|];
      } else {
        IndexOfIsFirst(s[1..], pat, j - 1);
        OccursInTail(s, pat, j - 1);
      }
    }
  }

  /** `s.includes(pat)`. */
  predicate Contains(s: string, pat: string)
  {
    IndexOf(s, pat) >= 0
  }

  /** Any occurrence of `pat` makes `s` contain it, and `IndexOf` is at or before it. */
  lemma ContainsAt(s: string, pat: string, i: int)
    requires OccursAt(s, pat, i)
    ensures Contains(s, pat) && IndexOf(s, pat) <= i
  {
    if IndexOf(s, pat) < 0 || i < IndexOf(s, pat) {
      IndexOfIsFirst(s, pat, i);
    }
  }

  /** A string that does not contain the one-character string `[c]` has no `c`. */
  lemma NoOccurrenceChar(s: string, c: char)
    requires !Contains(s, [c])
    ensures c !in s
  {
    if c in s {
      var i :| 0 <= i < |s| && s[i] == c;
      OccursChar(s, c, i);
      ContainsAt(s, [c], i);
    }
  }

  /** The text before the first occurrence of `pat` does not contain it. */
  lemma BeforeFirst(s: string, pat: string)
    requires |pat| > 0 && IndexOf(s, pat) >= 0
    ensures !Contains(s[..IndexOf(s, pat)], pat)
  {
    var i := IndexOf(s, pat);
    var r := IndexOf(s[..i], pat);
    if r >= 0 {
      OccursInPrefix(s, pat, i, r);
      IndexOfIsFirst(s, pat, r);
    }
  }

  /**
   * `s.split(sep)` for a non-empty separator: the pieces between the
   * leftmost non-overlapping occurrences of `sep` (see `SplitPieces` and
   * `JoinSplit`); never an empty list.
   */
  function Split(s: string, sep: string): (parts: seq<string>)
    requires |sep| > 0
    ensures |parts| >= 1
    decreases |s|
  {
    var i := IndexOf(s, sep);
    if i < 0 then [s] else [s[..i]] + Split(s[i + |sep|..], sep)
  }

  /** A split at a separator that occurs: the text before it, then the split of the rest. */
  lemma SplitStep(s: string, sep: string)
    requires |sep| > 0 && IndexOf(s, sep) >= 0
    ensures Split(s, sep) == [s[..IndexOf(s, sep)]] + Split(s[IndexOf(s, sep) + |sep|..], sep)
  {
  }

  /** A split has a single piece exactly when the separator does not occur. */
  lemma SplitOnePiece(s: string, sep: string)
    requires |sep| > 0
    ensures |Split(s, sep)| == 1 <==> !Contains(s, sep)
  {
    if IndexOf(s, sep) >= 0 {
      SplitStep(s, sep);
    }
  }

  /** No piece of a split contains the separator. */
  lemma {:induction false} SplitPieces(s: string, sep: string, k: int)
    requires |sep| > 0 && 0 <= k < |Split(s, sep)|
    ensures !Contains(Split(s, sep)[k], sep)
    decreases |s|
  {
    var i := IndexOf(s, sep);
    if i >= 0 {
      var rest := s[i + |sep|..];
      SplitStep(s, sep);
      if k == 0 {
        BeforeFirst(s, sep);
      } else {
        SplitPieces(rest, sep, k - 1);
      }
    }
  }

  /** A string is the concatenation of the three slices two cut points make. */
  lemma Pieces(s: string, a: int, b: int)
    requires 0 <= a <= b <= |s|
    ensures s == s[..a] + s[a..b] + s[b..]
  {
  }

  /** `parts.join(sep)`: the inverse of `Split`. */
  function Join(parts: seq<string>, sep: string): string
  {
    if |parts| == 0 then ""
    else if |parts| == 1 then parts[0]
    else parts[0] + sep + Join(parts[1..], sep)
  }

  /** Joining the pieces of a split with the same separator gives back the string. */
  lemma {:induction false} JoinSplit(s: string, sep: string)
    requires |sep| > 0
    ensures Join(Split(s, sep), sep) == s
    decreases |s|
  {
    var i := IndexOf(s, sep);
    if i >= 0 {
      var rest := s[i + |sep|..];
      var tail := Split(rest, sep);
      SplitStep(s, sep);
      JoinSplit(rest, sep);
      assert ([s[..i]] + tail)[1..] == tail;
      assert Join([s[..i]] + tail, sep) == s[..i] + sep + Join(tail, sep);
      assert s[i..i + |sep|] == sep;
      Pieces(s, i, i + |sep|);
    }
  }

  /** The first piece of a split is everything before the first separator. */
  lemma SplitFirst(s: string, sep: string)
    requires |sep| > 0
    ensures Split(s, sep)[0] == if IndexOf(s, sep) < 0 then s else s[..IndexOf(s, sep)]
  {
  }

  /** With a separator present, the second piece is the first piece of what follows it. */
  lemma SplitSecond(s: string, sep: string)
    requires |sep| > 0 && IndexOf(s, sep) >= 0
    ensures |Split(s, sep)| >= 2
    ensures Split(s, sep)[1] == Split(s[IndexOf(s, sep) + |sep|..], sep)[0]
  {
    SplitStep(s, sep);
  }

  /** `k` is the index just after the last `c` in `s`, or 0 when `s` has none. */
  predicate AfterLast(s: string, c: char, k: int)
  {
    0 <= k <= |s| && (k == 0 || s[k - 1] == c) && forall j :: k <= j < |s| ==> s[j] != c
  }

  /** Dropping a prefix that ends at or before the last `c` keeps the text after it. */
  lemma AfterLastDrop(s: string, c: char, k: int, m: int)
    requires AfterLast(s, c, k) && 0 <= m <= k
    ensures AfterLast(s[m..], c, k - m) && s[m..][k - m..] == s[k..]
  {
    var t := s[m..];
    forall j | k - m <= j < |t| ensures t[j] != c {
      assert t[j] == s[j + m];
    }
    if k - m > 0 {
      assert t[k - m - 1] == s[k - 1];
    }
  }

  /** `s.split(c).pop()` is the text after the last `c`. */
  lemma {:induction false} SplitLast(s: string, c: char, k: int)
    requires AfterLast(s, c, k)
    ensures var parts := Split(s, [c]); parts[|parts| - 1] == s[k..]
    decreases |s|
  {
    var i := IndexOf(s, [c]);
    if i < 0 {
      if k > 0 {
        OccursChar(s, c, k - 1);
        ContainsAt(s, [c], k - 1);
      }
    } else {
      OccursChar(s, c, i);
      AfterLastDrop(s, c, k, i + 1);
      SplitLast(s[i + 1..], c, k - i - 1);
      SplitStep(s, [c]);
    }
  }

  /** `p` is the text of `t` before its first `c` (all of `t` when there is none). */
  predicate UpToFirst(p: string, t: string, c: char)
  {
    |p| <= |t| && p == t[..|p|] && c !in p && (|p| == |t| || t[|p|] == c)
  }

  /** `s.split(c)[0]`: the text before the first `c`. */
  lemma SplitFirstChar(s: string, c: char)
    ensures UpToFirst(Split(s, [c])[0], s, c)
  {
    var i := IndexOf(s, [c]);
    OccursChar(s, c, i);
    SplitPieces(s, [c], 0);
    NoOccurrenceChar(Split(s, [c])[0], c);
  }

  /**
   * Cutting `t` at its first `sep` and then at its first `c`, where `sep`
   * begins with `c`, leaves the text of `t` before its first `c`.
   */
  lemma CutTwice(t: string, sep: string, c: char)
    requires |sep| > 0 && sep[0] == c
    ensures UpToFirst(Split(Split(t, sep)[0], [c])[0], t, c)
  {
    var seg := Split(t, sep)[0];
    SplitFirst(t, sep);
    var j := IndexOf(t, sep);
    if j >= 0 {
      assert t[j] == t[j..j + |sep|][0];
    }
    SplitFirstChar(seg, c);
  }

  /**
   * `s.split(sep)[1].split(c)[0]`, where `sep` occurs and begins with `c`: the
   * text after the first `sep` up to the next `c` or the end.
   */
  lemma CutSecond(s: string, sep: string, c: char)
    requires |sep| > 0 && sep[0] == c && Contains(s, sep)
    ensures |Split(s, sep)| >= 2
    ensures UpToFirst(Split(Split(s, sep)[1], [c])[0], s[IndexOf(s, sep) + |sep|..], c)
  {
    var t := s[IndexOf(s, sep) + |sep|..];
    SplitSecond(s, sep);
    assert Split(s, sep)[1] == Split(t, sep)[0];
    CutTwice(t, sep, c);
  }

  /** The text before the first `c` is unique. */
  lemma UpToFirstUnique(p: string, q: string, t: string, c: char)
    requires UpToFirst(p, t, c) && UpToFirst(q, t, c)
    ensures p == q
  {
  }

  /**
   * `s.split(c).pop().split(d)[0]`: the text after the last `c` up to the
   * first `d` after it.
   */
  lemma LastPieceCut(s: string, c: char, d: char, k: int, n: int)
    requires AfterLast(s, c, k) && k <= n <= |s| && d !in s[k..n] && (n == |s| || s[n] == d)
    ensures var parts := Split(s, [c]); Split(parts[|parts| - 1], [d])[0] == s[k..n]
  {
    SplitLast(s, c, k);
    var last, span := s[k..], s[k..n];
    SplitFirstChar(last, d);
    assert span == last[..n - k];
    assert n - k == |last| || last[n - k] == s[n];
    assert UpToFirst(span, last, d);
    UpToFirstUnique(Split(last, [d])[0], span, last, d);
  }

  /** `s.lastIndexOf(c)` for one character: the last index holding `c`, or -1. */
  function LastIndexOf(s: string, c: char): (r: int)
    ensures r >= -1 && AfterLast(s, c, r + 1)
  {
    if |s| == 0 then -1
    else if s[|s| - 1] == c then |s| - 1
    else LastIndexOf(s[..|s| - 1], c)
  }

  /** The last index holding `c` is the one after which no `c` follows. */
  lemma LastIndexOfIs(s: string, c: char, r: int)
    requires r >= -1 && AfterLast(s, c, r + 1)
    ensures LastIndexOf(s, c) == r
  {
  }

  /** A string without `c` has no last `c`. */
  lemma LastIndexOfAbsent(s: string, c: char)
    requires c !in s
    ensures LastIndexOf(s, c) == -1
  {
    LastIndexOfIs(s, c, -1);
  }

  /** The last `c` of `a + b`, where `a` has none and `b` holds one only at its start. */
  lemma LastIndexOfJoin(a: string, b: string, c: char)
    requires c !in a && |b| > 0 && b[0] == c && c !in b[1..]
    ensures LastIndexOf(a + b, c) == |a|
  {
    var s := a + b;
    forall j | |a| < j < |s| ensures s[j] != c {
      assert s[j] == b[1..][j - |a| - 1];
    }
    LastIndexOfIs(s, c, |a|);
  }

  /** The code points `String.prototype.trim` removes: WhiteSpace and LineTerminator. */
  predicate IsWhiteSpace(ch: char)
  {
    || ('\t' <= ch <= '\r')              // tab, line feed, vertical tab, form feed, carriage return
    || ch == ' ' || ch == '\U{00A0}' || ch == '\U{1680}'
    || ('\U{2000}' <= ch <= '\U{200A}')  // the typographic spaces
    || ch == '\U{2028}' || ch == '\U{2029}' || ch == '\U{202F}' || ch == '\U{205F}'
    || ch == '\U{3000}' || ch == '\U{FEFF}'
  }

  /** `s` with its leading white space removed (see `TrimStartSpec`). */
  function TrimStart(s: string): (r: string)
    ensures |r| <= |s| && r == s[|s| - |r|..]
  {
    if |s| > 0 && IsWhiteSpace(s[0]) then TrimStart(s[1..]) else s
  }

  /** Everything `TrimStart` cuts off is white space, and what it keeps does not start with any. */
  lemma {:induction false} TrimStartSpec(s: string)
    ensures forall i :: 0 <= i < |s| - |TrimStart(s)| ==> IsWhiteSpace(s[i])
    ensures TrimStart(s) == [] || !IsWhiteSpace(TrimStart(s)[0])
  {
    if |s| > 0 && IsWhiteSpace(s[0]) {
      var t := s[1..];
      assert TrimStart(s) == TrimStart(t);
      TrimStartSpec(t);
      forall i | 1 <= i < |s| - |TrimStart(t)| ensures IsWhiteSpace(s[i]) {
        assert s[i] == t[i - 1];
      }
    } else {
      assert TrimStart(s) == s;
    }
  }

  /** `s` with its trailing white space removed (see `TrimEndSpec`). */
  function TrimEnd(s: string): (r: string)
    ensures |r| <= |s| && r == s[..|r|]
  {
    if |s| > 0 && IsWhiteSpace(s[|s| - 1]) then TrimEnd(s[..|s| - 1]) else s
  }

  /** Everything `TrimEnd` cuts off is white space, and what it keeps does not end with any. */
  lemma {:induction false} TrimEndSpec(s: string)
    ensures forall i :: |TrimEnd(s)| <= i < |s| ==> IsWhiteSpace(s[i])
    ensures TrimEnd(s) == [] || !IsWhiteSpace(TrimEnd(s)[|TrimEnd(s)| - 1])
  {
    if |s| > 0 && IsWhiteSpace(s[|s| - 1]) {
      var t := s[..|s| - 1];
      assert TrimEnd(s) == TrimEnd(t);
      TrimEndSpec(t);
      forall i | |TrimEnd(t)| <= i < |s| - 1 ensures IsWhiteSpace(s[i]) {
        assert s[i] == t[i];
      }
    } else {
      assert TrimEnd(s) == s;
    }
  }

  /** `s.trim()`: a prefix of `TrimStart(s)`, itself a suffix of `s` (see `TrimSpec`). */
  function Trim(s: string): (r: string)
    ensures |r| <= |TrimStart(s)| && r == TrimStart(s)[..|r|]
  {
    TrimEnd(TrimStart(s))
  }

  /**
   * `s.trim()` is empty exactly when every character of `s` is white space;
   * otherwise it neither starts nor ends with white space.
   */
  lemma TrimSpec(s: string)
    ensures Trim(s) == [] <==> forall i :: 0 <= i < |s| ==> IsWhiteSpace(s[i])
    ensures Trim(s) != [] ==> !IsWhiteSpace(Trim(s)[0]) && !IsWhiteSpace(Trim(s)[|Trim(s)| - 1])
  {
    var u := TrimStart(s);
    var r := TrimEnd(u);
    assert Trim(s) == r;
    TrimStartSpec(s);
    TrimEndSpec(u);
    if r == [] {
      assert u == [];
    } else {
      assert r[0] == u[0];
    }
  }
}
