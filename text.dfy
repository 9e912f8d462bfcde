/**
 * The JavaScript string built-ins the library relies on (`trim`, `split`,
 * `join`, `startsWith`, `indexOf`, `lastIndexOf`, `toLowerCase`, `repeat`,
 * `padStart`, number-to-string), stated once over `seq<char>`.
 */
module Text {

  /** The characters matched by `\s` and removed by `trim()`: WhiteSpace and LineTerminator. */
  predicate IsWs(c: char) {
    c == '\t' || c == '\n' || c == '\U{B}' || c == '\U{C}' || c == '\r' || c == ' '
    || c == '\U{A0}' || c == '\U{1680}' || ('\U{2000}' <= c <= '\U{200A}')
    || c == '\U{2028}' || c == '\U{2029}' || c == '\U{202F}' || c == '\U{205F}'
    || c == '\U{3000}' || c == '\U{FEFF}'
  }

  predicate AllWs(s: string) {
    forall i :: 0 <= i < |s| ==> IsWs(s[i])
  }

  /** `s.trimStart()` */
  function TrimStart(s: string): (r: string)
    ensures |r| <= |s| && r == s[|s| - |r|..]
    ensures r == [] || !IsWs(r[0])
    ensures AllWs(s[..|s| - |r|])
  {
    if s != [] && IsWs(s[0]) then TrimStart(s[1..]) else s
  }

  /** `s.trimEnd()` */
  function TrimEnd(s: string): (r: string)
    ensures |r| <= |s| && r == s[..|r|]
    ensures r == [] || !IsWs(r[|r| - 1])
    ensures AllWs(s[|r|..])
  {
    if s != [] && IsWs(s[|s| - 1]) then TrimEnd(s[..|s| - 1]) else s
  }

  /** `s.trim()` */
  function Trim(s: string): (r: string)
    ensures |r| <= |s|
    ensures r == [] || (!IsWs(r[0]) && !IsWs(r[|r| - 1]))
  {
    TrimEnd(TrimStart(s))
  }

  lemma TrimAllWs(s: string)
    ensures Trim(s) == [] <==> AllWs(s)
  {
  }

  lemma TrimNoOp(s: string)
    requires s == [] || (!IsWs(s[0]) && !IsWs(s[|s| - 1]))
    ensures Trim(s) == s
  {
  }

  /** Every `from` written as `to`, every other character kept. */
  function ReplaceChar(s: string, from: char, to: char): (r: string)
    ensures |r| == |s|
    ensures forall i :: 0 <= i < |s| ==> r[i] == (if s[i] == from then to else s[i])
  {
    seq(|s|, i requires 0 <= i < |s| => if s[i] == from then to else s[i])
  }

  /** Replacing characters works part by part. */
  lemma ReplaceCharConcat(x: string, y: string, from: char, to: char)
    ensures ReplaceChar(x + y, from, to) == ReplaceChar(x, from, to) + ReplaceChar(y, from, to)
  {
  }

  /** Concatenation regroups; stated once so that proofs need not rediscover it element by element. */
  lemma AppendAssoc<T>(x: seq<T>, y: seq<T>, z: seq<T>)
    ensures x + (y + z) == (x + y) + z
  {
  }

  /** Trimming the start of a concatenation: the whitespace of `a` is skipped into `b` only when `a` is all whitespace. */
  lemma {:induction false} TrimStartConcat(a: string, b: string)
    ensures AllWs(a) ==> TrimStart(a + b) == TrimStart(b)
    ensures !AllWs(a) ==> TrimStart(a + b) == TrimStart(a) + b
    decreases |a|
  {
    if a == [] {
      assert a + b == b;
    } else if IsWs(a[0]) {
      var t := a[1..];
      assert (a + b)[1..] == t + b;
      TrimStartConcat(t, b);
      AllWsTail(a);
    } else {
      assert (a + b)[0] == a[0];
    }
  }

  /** A non-empty text is all whitespace when its first character is and the rest is. */
  lemma AllWsTail(a: string)
    requires a != []
    ensures AllWs(a) <==> IsWs(a[0]) && AllWs(a[1..])
  {
    assert forall i :: 0 < i < |a| ==> a[i] == a[1..][i - 1];
  }

  /** `s.split(sep)` for a one-character separator. */
  function Split(s: string, sep: char): (r: seq<string>)
    ensures |r| >= 1
    ensures forall i :: 0 <= i < |r| ==> sep !in r[i]
    decreases |s|
  {
    var i := IndexOf(s, sep);
    if i < 0 then [s] else [s[..i]] + Split(s[i + 1..], sep)
  }

  /** `parts.join(sep)` */
  function Join(parts: seq<string>, sep: string): (r: string)
  {
    if parts == [] then ""
    else if |parts| == 1 then parts[0]
    else parts[0] + sep + Join(parts[1..], sep)
  }

  /** A list is its first `i` elements followed by the rest. */
  lemma TakeDrop<T>(s: seq<T>, i: nat)
    requires i <= |s|
    ensures s[..i] + s[i..] == s
  {
  }

  /** Joining a part onto a non-empty list puts one separator after it. */
  lemma JoinCons(head: string, rest: seq<string>, sep: string)
    requires |rest| >= 1
    ensures Join([head] + rest, sep) == head + sep + Join(rest, sep)
  {
    assert ([head] + rest)[1..] == rest;
  }

  lemma {:induction false} JoinSplit(s: string, sep: char)
    ensures Join(Split(s, sep), [sep]) == s
    decreases |s|
  {
    var i := IndexOf(s, sep);
    if i >= 0 {
      var rest := Split(s[i + 1..], sep);
      JoinSplit(s[i + 1..], sep);
      JoinCons(s[..i], rest, [sep]);
      assert s == s[..i] + [sep] + s[i + 1..];
    }
  }

  /** Splitting is injective: equal component lists come from equal strings. */
  lemma SplitInjective(s: string, t: string, sep: char)
    requires Split(s, sep) == Split(t, sep)
    ensures s == t
  {
    JoinSplit(s, sep);
    JoinSplit(t, sep);
  }

  lemma SplitNoSep(a: string, sep: char)
    requires sep !in a
    ensures Split(a, sep) == [a]
  {
  }

  lemma SplitAtSep(a: string, rest: string, sep: char)
    requires sep !in a
    ensures Split(a + [sep] + rest, sep) == [a] + Split(rest, sep)
  {
    var s := a + [sep] + rest;
    assert s[..|a|] == a && s[|a|] == sep && s[|a| + 1..] == rest;
    IndexOfIs(s, sep, |a|);
  }

  /** Splitting a join of separator-free parts gives the parts back. */
  lemma {:induction false} SplitJoin(parts: seq<string>, sep: char)
    requires |parts| >= 1 && forall i :: 0 <= i < |parts| ==> sep !in parts[i]
    ensures Split(Join(parts, [sep]), sep) == parts
  {
    if |parts| == 1 {
      SplitNoSep(parts[0], sep);
    } else {
      SplitJoin(parts[1..], sep);
      SplitAtSep(parts[0], Join(parts[1..], [sep]), sep);
      assert [parts[0]] + parts[1..] == parts;
    }
  }

  function Last<T>(xs: seq<T>): T
    requires xs != []
  {
    xs[|xs| - 1]
  }

  /** The last part of a split is the text after the last separator, or the whole text without one. */
  lemma {:induction false} SplitLastPart(s: string, sep: char)
    ensures Last(Split(s, sep)) == s[LastIndexOf(s, sep) + 1..]
    decreases |s|
  {
    var i := IndexOf(s, sep);
    if i < 0 {
      assert Split(s, sep) == [s] && LastIndexOf(s, sep) == -1;
      assert s[0..] == s;
    } else {
      var t := s[i + 1..];
      var rest := Split(t, sep);
      assert Split(s, sep) == [s[..i]] + rest;
      assert Last(Split(s, sep)) == Last(rest);
      assert Last(rest) == t[LastIndexOf(t, sep) + 1..] by { SplitLastPart(t, sep); }
      TextAfterLast(s, sep, i);
    }
  }

  /** After the first separator, the text after the last one is unchanged. */
  lemma TextAfterLast(s: string, sep: char, i: nat)
    requires i < |s| && s[i] == sep
    ensures s[LastIndexOf(s, sep) + 1..] == s[i + 1..][LastIndexOf(s[i + 1..], sep) + 1..]
  {
    var t := s[i + 1..];
    var j := LastIndexOf(t, sep);
    var k := if j >= 0 then i + 1 + j else i;
    assert LastIndexOf(s, sep) == k by {
      if j >= 0 {
        assert s[k + 1..] == t[j + 1..];
      }
      LastIndexOfIs(s, sep, k);
    }
    assert s[k + 1..] == t[j + 1..];
  }

  /** A character absent from a string is absent from every part of its split. */
  lemma {:induction false} SplitKeepsOut(s: string, sep: char, c: char)
    requires c !in s
    ensures forall i :: 0 <= i < |Split(s, sep)| ==> c !in Split(s, sep)[i]
    decreases |s|
  {
    var i := IndexOf(s, sep);
    if i >= 0 {
      assert c !in s[..i] && c !in s[i + 1..] by {
        assert forall x :: x in s[..i] ==> x in s;
        assert forall x :: x in s[i + 1..] ==> x in s;
      }
      SplitKeepsOut(s[i + 1..], sep, c);
    }
  }

  /** A character absent from a string is absent from its trimmed form. */
  lemma TrimKeepsOut(s: string, c: char)
    requires c !in s
    ensures c !in Trim(s)
  {
    var t := TrimStart(s);
    assert forall x :: x in t ==> x in s;
    assert forall x :: x in TrimEnd(t) ==> x in t;
  }

  /** Joining a concatenation puts one separator at the seam. */
  lemma {:induction false} JoinAppend(a: seq<string>, b: seq<string>, sep: string)
    requires |a| >= 1 && |b| >= 1
    ensures Join(a + b, sep) == Join(a, sep) + sep + Join(b, sep)
  {
    if |a| == 1 {
      assert (a + b)[1..] == b;
    } else {
      assert (a + b)[1..] == a[1..] + b;
      JoinAppend(a[1..], b, sep);
    }
  }

  /** The length of a join: the parts plus one separator between each pair of neighbours. */
  lemma {:induction false} JoinLength(parts: seq<string>, sep: string)
    requires |parts| >= 1
    ensures |Join(parts, sep)| == TotalLength(parts) + (|parts| - 1) * |sep|
  {
    if |parts| > 1 {
      JoinLength(parts[1..], sep);
    }
  }

  function TotalLength(parts: seq<string>): nat {
    if parts == [] then 0 else |parts[0]| + TotalLength(parts[1..])
  }

  /** `s.slice(start, end)`: negative positions count from the end, and everything is clamped. */
  function Slice(s: string, start: int, end: int): (r: string)
    ensures 0 <= start <= end <= |s| ==> r == s[start..end]
    ensures |r| <= |s|
  {
    var a := if start < 0 then (if |s| + start < 0 then 0 else |s| + start) else if start > |s| then |s| else start;
    var b := if end < 0 then (if |s| + end < 0 then 0 else |s| + end) else if end > |s| then |s| else end;
    if a >= b then "" else s[a..b]
  }

  predicate StartsWith(s: string, prefix: string) {
    |prefix| <= |s| && s[..|prefix|] == prefix
  }

  /** `s.includes(sub)` */
  predicate Includes(s: string, sub: string) {
    exists i :: 0 <= i <= |s| - |sub| && OccursAt(s, sub, i)
  }

  predicate OccursAt(s: string, sub: string, i: int) {
    0 <= i <= |s| - |sub| && s[i..i + |sub|] == sub
  }

  /** The first index at or after `k` holding `c`, or -1. */
  function IndexFrom(s: string, c: char, k: nat): (r: int)
    requires k <= |s|
    ensures r == -1 || (k <= r < |s| && s[r] == c)
    ensures forall j :: k <= j < (if r == -1 then |s| else r) ==> s[j] != c
    decreases |s| - k
  {
    if k == |s| then -1 else if s[k] == c then k else IndexFrom(s, c, k + 1)
  }

  /** `s.indexOf(c)`: the first index of `c`, or -1. */
  function IndexOf(s: string, c: char): (r: int)
    ensures -1 <= r < |s|
    ensures r == -1 <==> c !in s
    ensures r >= 0 ==> s[r] == c && c !in s[..r]
  {
    var r := IndexFrom(s, c, 0);
    assert r >= 0 ==> c !in s[..r] by {
      if r >= 0 {
        var t := s[..r];
        forall j | 0 <= j < |t| ensures t[j] != c { assert t[j] == s[j]; }
      }
    }
    r
  }

  lemma {:induction false} IndexFromIs(s: string, c: char, k: nat, i: nat)
    requires k <= i < |s| && s[i] == c
    requires forall j :: k <= j < i ==> s[j] != c
    ensures IndexFrom(s, c, k) == i
    decreases i - k
  {
    if k < i {
      IndexFromIs(s, c, k + 1, i);
    }
  }

  /** The first `c` is at `i` when `s[i]` is one and none precedes it. */
  lemma IndexOfIs(s: string, c: char, i: nat)
    requires i < |s| && s[i] == c && c !in s[..i]
    ensures IndexOf(s, c) == i
  {
    forall j | 0 <= j < i ensures s[j] != c {
      assert s[j] == s[..i][j];
    }
    IndexFromIs(s, c, 0, i);
  }

  /** The last index below `n` holding `c`, or -1. */
  function LastIndexBelow(s: string, c: char, n: nat): (r: int)
    requires n <= |s|
    ensures -1 <= r < n
    ensures r >= 0 ==> s[r] == c
    ensures forall k :: r < k < n ==> s[k] != c
  {
    if n == 0 then -1 else if s[n - 1] == c then n - 1 else LastIndexBelow(s, c, n - 1)
  }

  lemma {:induction false} LastIndexBelowIs(s: string, c: char, n: nat, i: nat)
    requires i < n <= |s| && s[i] == c
    requires forall k :: i < k < n ==> s[k] != c
    ensures LastIndexBelow(s, c, n) == i
    decreases n
  {
    if s[n - 1] != c {
      LastIndexBelowIs(s, c, n - 1, i);
    }
  }

  /** `s.lastIndexOf(c)`: the last index of `c`, or -1. */
  function LastIndexOf(s: string, c: char): (r: int)
    ensures -1 <= r < |s|
    ensures r == -1 <==> c !in s
    ensures r >= 0 ==> s[r] == c && c !in s[r + 1..]
  {
    var r := LastIndexBelow(s, c, |s|);
    assert r >= 0 ==> c !in s[r + 1..] by {
      if r >= 0 {
        var t := s[r + 1..];
        forall j | 0 <= j < |t| ensures t[j] != c { assert t[j] == s[r + 1 + j]; }
      }
    }
    r
  }

  /** The last `c` is at `i` when `s[i]` is one and none follows. */
  lemma LastIndexOfIs(s: string, c: char, i: nat)
    requires i < |s| && s[i] == c && c !in s[i + 1..]
    ensures LastIndexOf(s, c) == i
  {
    forall k | i < k < |s| ensures s[k] != c {
      assert s[k] == s[i + 1..][k - i - 1];
    }
    LastIndexBelowIs(s, c, |s|, i);
  }

  /** A slice holds no `c` when none of its positions does. */
  lemma NoneBetween(s: string, c: char, lo: nat, hi: nat)
    requires lo <= hi <= |s|
    requires forall k :: lo <= k < hi ==> s[k] != c
    ensures c !in s[lo..hi]
  {
    var t := s[lo..hi];
    forall j | 0 <= j < |t| ensures t[j] != c { assert t[j] == s[lo + j]; }
  }

  /** `s.lastIndexOf(c, from)`: the search starts at `from`, clamped to the string. */
  function LastIndexOfFrom(s: string, c: char, from: int): (r: int)
    ensures -1 <= r < |s|
    ensures r >= 0 ==> s[r] == c && (r <= from || r == 0)
    ensures 0 <= from < |s| && r >= 0 ==> c !in s[r + 1..from + 1]
    ensures 0 <= from < |s| && r == -1 ==> c !in s[..from + 1]
  {
    if |s| == 0 then -1
    else
      var start := if from < 0 then 0 else if from >= |s| then |s| - 1 else from;
      var r := LastIndexBelow(s, c, start + 1);
      assert 0 <= from < |s| && r >= 0 ==> c !in s[r + 1..from + 1] by {
        if 0 <= from < |s| && r >= 0 {
          NoneBetween(s, c, r + 1, from + 1);
        }
      }
      assert 0 <= from < |s| && r == -1 ==> c !in s[..from + 1] by {
        if 0 <= from < |s| && r == -1 {
          NoneBetween(s, c, 0, from + 1);
          assert s[0..from + 1] == s[..from + 1];
        }
      }
      r
  }

  /** The last `c` at or before `from` is at `i` when `s[i]` is one and none follows up to `from`. */
  lemma LastIndexOfFromIs(s: string, c: char, from: nat, i: nat)
    requires i <= from < |s| && s[i] == c && c !in s[i + 1..from + 1]
    ensures LastIndexOfFrom(s, c, from) == i
  {
    forall k | i < k < from + 1 ensures s[k] != c {
      assert s[k] == s[i + 1..from + 1][k - i - 1];
    }
    LastIndexBelowIs(s, c, from + 1, i);
  }

  function LowerChar(c: char): char {
    if 'A' <= c <= 'Z' then (c as int + 32) as char else c
  }

  /** `s.toLowerCase()`, for the ASCII letters. */
  function ToLower(s: string): (r: string)
    ensures |r| == |s|
    ensures forall i :: 0 <= i < |s| ==> r[i] == LowerChar(s[i])
  {
    if s == [] then "" else [LowerChar(s[0])] + ToLower(s[1..])
  }

  /** `s.repeat(n)` */
  function Repeat(s: string, n: nat): (r: string)
    ensures |r| == n * |s|
  {
    if n == 0 then "" else s + Repeat(s, n - 1)
  }

  function Spaces(n: nat): (r: string)
    ensures |r| == n && forall i :: 0 <= i < n ==> r[i] == ' '
  {
    if n == 0 then "" else " " + Spaces(n - 1)
  }

  /** `s.padStart(width, " ")` */
  function PadStart(s: string, width: int): (r: string)
    ensures |s| <= width ==> |r| == width && r[width - |s|..] == s
    ensures |s| >= width ==> r == s
  {
    if |s| >= width then s else Spaces(width - |s|) + s
  }

  function DigitChar(d: nat): char
    requires d < 10
  {
    ('0' as int + d) as char
  }

  /** A number's decimal text, as `n.toString()` writes a non-negative integer. */
  function NatToString(n: nat): (r: string)
    ensures |r| >= 1
    ensures forall i :: 0 <= i < |r| ==> '0' <= r[i] <= '9'
    ensures r[0] == '0' ==> n == 0 && r == "0"
    decreases n
  {
    if n < 10 then [DigitChar(n)] else NatToString(n / 10) + [DigitChar(n % 10)]
  }

  /** `i.toString()` for an integer. */
  function IntToString(i: int): string {
    if i < 0 then "-" + NatToString(-i) else NatToString(i)
  }

  predicate IsDigit(c: char) {
    '0' <= c <= '9'
  }

  predicate AllDigits(s: string) {
    forall i :: 0 <= i < |s| ==> IsDigit(s[i])
  }

  /** The value of a string of decimal digits. */
  function DigitsValue(s: string): nat
    requires AllDigits(s)
  {
    if s == [] then 0 else DigitsValue(s[..|s| - 1]) * 10 + (s[|s| - 1] as int - '0' as int)
  }

  lemma {:induction false} DigitsValueOfNatToString(n: nat)
    ensures AllDigits(NatToString(n)) && DigitsValue(NatToString(n)) == n
    decreases n
  {
    if n >= 10 {
      DigitsValueOfNatToString(n / 10);
      var p := NatToString(n / 10);
      var s := NatToString(n);
      assert s == p + [DigitChar(n % 10)];
      assert s[..|s| - 1] == p;
      assert s[|s| - 1] as int - '0' as int == n % 10;
    }
  }
}
