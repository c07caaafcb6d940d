/**
  The pieces of Go's `strings` package that the backup core relies on, on strings
  seen as sequences of Unicode code points.
 */
module Strings {

  /** Go's `unicode.IsSpace`: the characters with the Unicode White_Space property. */
  predicate IsSpace(c: char) {
    || ('\t' <= c <= '\r')
    || c == ' '
    || c == '\U{85}'
    || c == '\U{A0}'
    || c == '\U{1680}'
    || ('\U{2000}' <= c <= '\U{200A}')
    || c == '\U{2028}'
    || c == '\U{2029}'
    || c == '\U{202F}'
    || c == '\U{205F}'
    || c == '\U{3000}'
  }

  predicate AllSpace(s: string) {
    forall i :: 0 <= i < |s| ==> IsSpace(s[i])
  }

  /** Spaces at every index outside `i..j`: what surrounds the cut `s[i..j]`. */
  predicate SpacesAround(s: string, i: nat, j: nat)
    requires i <= j <= |s|
  {
    forall k :: 0 <= k < |s| && (k < i || j <= k) ==> IsSpace(s[k])
  }

  /** A cut `s[i..j]` that trimming could make: spaces around it, and none at either end of it. */
  predicate IsTrimCut(s: string, i: nat, j: nat) {
    && i <= j <= |s|
    && SpacesAround(s, i, j)
    && (i < j ==> !IsSpace(s[i]) && !IsSpace(s[j - 1]))
  }

  /** The first index from `k` on that does not hold a space, or `|s|` when there is none. */
  function TrimStart(s: string, k: nat): (i: nat)
    requires k <= |s|
    ensures k <= i <= |s|
    ensures i < |s| ==> !IsSpace(s[i])
    decreases |s| - k
  {
    if k < |s| && IsSpace(s[k]) then TrimStart(s, k + 1) else k
  }

  /** Everything `TrimStart` skips is a space. */
  lemma {:induction false} TrimStartSkipsSpaces(s: string, k: nat)
    requires k <= |s|
    ensures forall m :: k <= m < TrimStart(s, k) ==> IsSpace(s[m])
    decreases |s| - k
  {
    if k < |s| && IsSpace(s[k]) {
      TrimStartSkipsSpaces(s, k + 1);
    }
  }

  /** Going down from `k`, but not below `lo`, the first index whose predecessor is not a space. */
  function TrimStop(s: string, lo: nat, k: nat): (j: nat)
    requires lo <= k <= |s|
    ensures lo <= j <= k
    ensures j > lo ==> !IsSpace(s[j - 1])
    decreases k
  {
    if k > lo && IsSpace(s[k - 1]) then TrimStop(s, lo, k - 1) else k
  }

  /** Everything `TrimStop` drops is a space. */
  lemma {:induction false} TrimStopDropsSpaces(s: string, lo: nat, k: nat)
    requires lo <= k <= |s|
    ensures forall m :: TrimStop(s, lo, k) <= m < k ==> IsSpace(s[m])
    decreases k
  {
    if k > lo && IsSpace(s[k - 1]) {
      TrimStopDropsSpaces(s, lo, k - 1);
    }
  }

  /**
    Go's `strings.TrimSpace`: move the start past the leading spaces, then the stop back over
    the trailing ones (never below the start), and keep what lies between.
   */
  function TrimSpace(s: string): (r: string)
    ensures |r| <= |s|
    ensures r != [] ==> !IsSpace(r[0]) && !IsSpace(r[|r| - 1])
  {
    var i := TrimStart(s, 0);
    s[i..TrimStop(s, i, |s|)]
  }

  /** The cut that trimming makes, by its indices. */
  lemma TrimCut(s: string) returns (i: nat, j: nat)
    ensures IsTrimCut(s, i, j) && TrimSpace(s) == s[i..j]
  {
    i := TrimStart(s, 0);
    j := TrimStop(s, i, |s|);
    TrimStartSkipsSpaces(s, 0);
    TrimStopDropsSpaces(s, i, |s|);
  }

  /** The trimmed text is empty exactly when the text is all spaces. */
  lemma TrimSpaceEmpty(s: string)
    ensures TrimSpace(s) == [] <==> AllSpace(s)
  {
    var i, j := TrimCut(s);
    if i == j {
      assert forall k :: 0 <= k < |s| ==> IsSpace(s[k]);
    }
  }

  /** `r` is a contiguous middle of `s` with nothing but spaces cut from either end. */
  predicate IsMiddle(s: string, r: string) {
    exists i, j :: 0 <= i <= j <= |s| && r == s[i..j] && AllSpace(s[..i]) && AllSpace(s[j..])
  }

  lemma SpacesAroundAll(s: string, a: nat, b: nat)
    requires a <= b <= |s| && SpacesAround(s, a, b)
    ensures AllSpace(s[..a]) && AllSpace(s[b..])
  {
    assert forall k :: 0 <= k < a ==> s[..a][k] == s[k];
    assert forall k :: 0 <= k < |s| - b ==> s[b..][k] == s[b + k];
  }

  /** Trimming only cuts spaces from the ends: the result is a contiguous middle of the input, inner spaces kept. */
  lemma TrimSpaceMiddle(s: string)
    ensures IsMiddle(s, TrimSpace(s))
  {
    var i, j := TrimCut(s);
    SpacesAroundAll(s, i, j);
  }

  /** Two cuts trimming could make are the same cut. */
  lemma SameCut(s: string, a: nat, b: nat, i: nat, j: nat)
    requires IsTrimCut(s, a, b) && IsTrimCut(s, i, j)
    ensures a < b ==> a == i && b == j
    ensures s[a..b] == s[i..j]
  {
    assert a < b <==> i < j;
  }

  /** Trimming has only one possible outcome: the middle whose ends are not spaces and whose surroundings are. */
  lemma TrimSpaceUnique(s: string, i: nat, j: nat)
    requires IsTrimCut(s, i, j)
    ensures TrimSpace(s) == s[i..j]
  {
    var a, b := TrimCut(s);
    SameCut(s, a, b, i, j);
  }

  /** Spaces put in front of a text move its trim cut along with them. */
  lemma ShiftCut(p: string, x: string, a: nat, b: nat)
    requires AllSpace(p) && IsTrimCut(x, a, b)
    ensures IsTrimCut(p + x, |p| + a, |p| + b) && (p + x)[|p| + a..|p| + b] == x[a..b]
  {
    var s := p + x;
    forall k | 0 <= k < |s| && (k < |p| + a || |p| + b <= k)
      ensures IsSpace(s[k])
    {
      if k < |p| {
        assert s[k] == p[k];
      } else {
        assert s[k] == x[k - |p|];
      }
    }
  }

  /** Leading spaces never reach the trimmed text. */
  lemma TrimLeadingSpace(p: string, x: string)
    requires AllSpace(p)
    ensures TrimSpace(p + x) == TrimSpace(x)
  {
    var a, b := TrimCut(x);
    ShiftCut(p, x, a, b);
    TrimSpaceUnique(p + x, |p| + a, |p| + b);
  }

  /** Trailing spaces never reach the trimmed text. */
  lemma TrimTrailingSpace(x: string, q: string)
    requires AllSpace(q)
    ensures TrimSpace(x + q) == TrimSpace(x)
  {
    var a, b := TrimCut(x);
    var s := x + q;
    assert forall k :: 0 <= k < |q| ==> s[|x| + k] == q[k];
    assert IsTrimCut(s, a, b);
    assert s[a..b] == x[a..b];
    TrimSpaceUnique(s, a, b);
  }

  /** Trimming keeps the string's middle: every character that is not a space survives. */
  lemma TrimSpaceKeeps(s: string, c: char)
    requires !IsSpace(c)
    ensures c in TrimSpace(s) <==> c in s
  {
    var i, j := TrimCut(s);
    if c in s {
      var k :| 0 <= k < |s| && s[k] == c;
      assert s[i..j][k - i] == c;
    }
  }

  /** A string that neither starts nor ends with a space is already trimmed. */
  lemma TrimmedWhenEndsNotSpace(s: string)
    requires s != [] && !IsSpace(s[0]) && !IsSpace(s[|s| - 1])
    ensures TrimSpace(s) == s
  {
    TrimSpaceUnique(s, 0, |s|);
  }

  /** Trimming twice is trimming once. */
  lemma TrimSpaceIdempotent(s: string)
    ensures TrimSpace(TrimSpace(s)) == TrimSpace(s)
  {
    var t := TrimSpace(s);
    if t != [] {
      TrimmedWhenEndsNotSpace(t);
    }
  }

  /** Index of the first occurrence of `c` in `s`. */
  function IndexOf(s: string, c: char): (i: nat)
    requires c in s
    ensures i < |s| && s[i] == c && c !in s[..i]
  {
    if s[0] == c then 0 else 1 + IndexOf(s[1..], c)
  }

  /** The first occurrence is the only one with no earlier occurrence. */
  lemma {:induction false} IndexOfFirst(s: string, c: char, j: nat)
    requires j < |s| && s[j] == c && c !in s[..j]
    ensures IndexOf(s, c) == j
    decreases j
  {
    if j > 0 {
      assert s[0] == s[..j][0];
      assert s[1..][..j - 1] == s[..j][1..];
      IndexOfFirst(s[1..], c, j - 1);
    }
  }

  /** Number of occurrences of `c` in `s`. */
  function Count(s: string, c: char): nat
  {
    if s == [] then 0 else (if s[0] == c then 1 else 0) + Count(s[1..], c)
  }

  lemma {:induction false} CountAppend(a: string, b: string, c: char)
    ensures Count(a + b, c) == Count(a, c) + Count(b, c)
    decreases |a|
  {
    if a == [] {
      assert a + b == b;
    } else {
      assert (a + b)[1..] == a[1..] + b;
      CountAppend(a[1..], b, c);
    }
  }

  lemma {:induction false} CountAbsent(s: string, c: char)
    requires c !in s
    ensures Count(s, c) == 0
    decreases |s|
  {
    if s != [] {
      assert c !in s[1..] by {
        assert forall k :: 0 <= k < |s| - 1 ==> s[1..][k] == s[k + 1];
      }
      CountAbsent(s[1..], c);
    }
  }

  /** Inverse of `Split`: the parts glued back together with the separator between them. */
  function Join(parts: seq<string>, sep: char): string
    requires |parts| >= 1
  {
    if |parts| == 1 then parts[0] else parts[0] + [sep] + Join(parts[1..], sep)
  }

  /** Go's `strings.Split` with a one-character separator: never empty, no part holds the separator. */
  function Split(s: string, sep: char): (parts: seq<string>)
    ensures |parts| >= 1
    ensures forall i :: 0 <= i < |parts| ==> sep !in parts[i]
    decreases |s|
  {
    if sep !in s then [s]
    else
      var i := IndexOf(s, sep);
      [s[..i]] + Split(s[i + 1..], sep)
  }

  /** Joining the parts of a split gives the string back. */
  lemma {:induction false} JoinSplit(s: string, sep: char)
    ensures Join(Split(s, sep), sep) == s
    decreases |s|
  {
    if sep in s {
      var i := IndexOf(s, sep);
      var rest := Split(s[i + 1..], sep);
      var parts := [s[..i]] + rest;
      assert Split(s, sep) == parts;
      assert parts[1..] == rest;
      JoinSplit(s[i + 1..], sep);
      assert s == s[..i] + [sep] + s[i + 1..];
    }
  }

  /** Splitting a join gives the parts back, when no part contains the separator. */
  lemma {:induction false} SplitJoin(parts: seq<string>, sep: char)
    requires |parts| >= 1
    requires forall i :: 0 <= i < |parts| ==> sep !in parts[i]
    ensures Split(Join(parts, sep), sep) == parts
    decreases |parts|
  {
    var s := Join(parts, sep);
    if |parts| == 1 {
    } else {
      var head := parts[0];
      var tail := Join(parts[1..], sep);
      assert s == head + [sep] + tail;
      assert s[|head|] == sep;
      assert s[..|head|] == head;
      assert sep in s;
      IndexOfFirst(s, sep, |head|);
      var i := IndexOf(s, sep);
      assert s[i + 1..] == tail;
      SplitJoin(parts[1..], sep);
      assert Split(s, sep) == [head] + parts[1..];
    }
  }

  /** A join whose last part is non-empty ends with that part's last character. */
  lemma {:induction false} JoinEndsWithLast(parts: seq<string>, sep: char)
    requires |parts| >= 1 && parts[|parts| - 1] != []
    ensures |Join(parts, sep)| >= 1
    ensures Join(parts, sep)[|Join(parts, sep)| - 1] == parts[|parts| - 1][|parts[|parts| - 1]| - 1]
    decreases |parts|
  {
    if |parts| > 1 {
      JoinEndsWithLast(parts[1..], sep);
      assert parts[1..][|parts[1..]| - 1] == parts[|parts| - 1];
    }
  }

  /** A string that ends with the separator splits into parts the last of which is empty. */
  lemma {:induction false} SplitTrailing(s: string, sep: char)
    requires s != [] && s[|s| - 1] == sep
    ensures Split(s, sep)[|Split(s, sep)| - 1] == ""
  {
    var parts := Split(s, sep);
    var last := parts[|parts| - 1];
    if last != [] {
      assert sep !in last;
      assert last[|last| - 1] in last;
      JoinSplit(s, sep);
      JoinEndsWithLast(parts, sep);
      assert false;
    }
  }

  /** One step of `Split`: the text before the first separator, then the split of the rest. */
  lemma SplitStep(s: string, sep: char)
    requires sep in s
    ensures Split(s, sep) == [s[..IndexOf(s, sep)]] + Split(s[IndexOf(s, sep) + 1..], sep)
  {
  }

  /** The separators of a text are the one at index `i`, plus those before and after it. */
  lemma CountAround(s: string, c: char, i: nat)
    requires i < |s| && s[i] == c && c !in s[..i]
    ensures Count(s, c) == 1 + Count(s[i + 1..], c)
  {
    assert s == s[..i] + ([c] + s[i + 1..]);
    CountAppend(s[..i], [c] + s[i + 1..], c);
    CountAppend([c], s[i + 1..], c);
    CountAbsent(s[..i], c);
    assert Count([c], c) == 1 by {
      assert [c][1..] == [];
    }
  }

  /** A split yields one more part than there are separators. */
  lemma {:induction false} SplitCount(s: string, sep: char)
    ensures |Split(s, sep)| == Count(s, sep) + 1
    decreases |s|
  {
    if sep !in s {
      CountAbsent(s, sep);
    } else {
      var i := IndexOf(s, sep);
      SplitStep(s, sep);
      CountAround(s, sep, i);
      SplitCount(s[i + 1..], sep);
    }
  }

  /** Go's `strings.SplitN(s, sep, 2)`: one part when the separator is absent, else the text around its first occurrence. */
  function SplitFirst(s: string, sep: char): (parts: seq<string>)
    ensures 1 <= |parts| <= 2
    ensures |parts| == 1 <==> sep !in s
    ensures |parts| == 1 ==> parts[0] == s
    ensures |parts| == 2 ==> parts[0] + [sep] + parts[1] == s && sep !in parts[0]
  {
    if sep in s then
      var i := IndexOf(s, sep);
      assert s == s[..i] + [sep] + s[i + 1..];
      [s[..i], s[i + 1..]]
    else [s]
  }

  /** Where a non-space separator first occurs in `s`, it first occurs in the trimmed middle. */
  lemma CutInMiddle(s: string, sep: char, a: nat, b: nat, i: nat, p: string, q: string)
    requires a <= b <= |s| && SpacesAround(s, a, b) && !IsSpace(sep)
    requires i < |s| && s[i] == sep && sep !in s[..i]
    requires s[a..b] == p + [sep] + q && sep !in p
    ensures i == a + |p| && s[..i] == s[..a] + p && s[i + 1..] == q + s[b..]
  {
    var k := a + |p|;
    SpacesAroundAll(s, a, b);
    assert s[k] == s[a..b][|p|] == sep;
    assert s[..k] == s[..a] + p;
    IndexOfFirst(s, sep, i);
    IndexOfFirst(s, sep, k);
    assert s[..i] == s[..a] + p;
    assert s[i + 1..b] == q;
    assert s[i + 1..] == s[i + 1..b] + s[b..];
  }

  /** Trimming, cutting at the first separator and trimming the halves equals cutting and trimming the halves. */
  lemma TrimThenCut(s: string, sep: char, i: nat)
    requires !IsSpace(sep) && i < |s| && s[i] == sep && sep !in s[..i]
    ensures |SplitFirst(TrimSpace(s), sep)| == 2
    ensures TrimSpace(SplitFirst(TrimSpace(s), sep)[0]) == TrimSpace(s[..i])
    ensures TrimSpace(SplitFirst(TrimSpace(s), sep)[1]) == TrimSpace(s[i + 1..])
  {
    var a, b := TrimCut(s);
    TrimSpaceKeeps(s, sep);
    var parts := SplitFirst(s[a..b], sep);
    CutInMiddle(s, sep, a, b, i, parts[0], parts[1]);
    SpacesAroundAll(s, a, b);
    TrimLeadingSpace(s[..a], parts[0]);
    TrimTrailingSpace(parts[1], s[b..]);
  }
}
