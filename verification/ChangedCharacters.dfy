/** The trimmed, two-row longest common subsequence of `changed_characters` (src/agent.rs, 1641-1695). */
module ChangedCharacters {
  import opened Wrappers

  /** `s` can be had from `a` by deleting characters. */
  predicate Subsequence<T(==)>(s: seq<T>, a: seq<T>) {
    if s == [] then true
    else if a == [] then false
    else if s[|s| - 1] == a[|a| - 1] then Subsequence(s[..|s| - 1], a[..|a| - 1])
    else Subsequence(s, a[..|a| - 1])
  }

  function Max(x: nat, y: nat): nat {
    if x > y then x else y
  }

  /** The recurrence the table fills in. */
  function Lcs<T(==)>(a: seq<T>, b: seq<T>): (n: nat)
    ensures n <= |a| && n <= |b|
    decreases |a| + |b|
  {
    if a == [] || b == [] then 0
    else if a[|a| - 1] == b[|b| - 1] then Lcs(a[..|a| - 1], b[..|b| - 1]) + 1
    else Max(Lcs(a[..|a| - 1], b), Lcs(a, b[..|b| - 1]))
  }

  // ----- the recurrence is the maximum over all common subsequences -----

  lemma {:induction false} SubsequenceShorter<T>(s: seq<T>, a: seq<T>)
    requires Subsequence(s, a)
    ensures |s| <= |a|
    decreases |a|
  {
    if s != [] {
      if s[|s| - 1] == a[|a| - 1] {
        SubsequenceShorter(s[..|s| - 1], a[..|a| - 1]);
      } else {
        SubsequenceShorter(s, a[..|a| - 1]);
      }
    }
  }

  /** Dropping the last character of a subsequence leaves a subsequence. */
  lemma {:induction false} DropLast<T>(s: seq<T>, a: seq<T>)
    requires s != [] && Subsequence(s, a)
    ensures Subsequence(s[..|s| - 1], a[..|a| - 1])
    decreases |a|
  {
    if s[|s| - 1] != a[|a| - 1] {
      DropLast(s, a[..|a| - 1]);
      Widen(s[..|s| - 1], a[..|a| - 1]);
    }
  }

  lemma {:induction false} Widen<T>(s: seq<T>, a: seq<T>)
    requires a != [] && Subsequence(s, a[..|a| - 1])
    ensures Subsequence(s, a)
    decreases |a|
  {
    if s != [] && s[|s| - 1] == a[|a| - 1] {
      DropLast(s, a[..|a| - 1]);
      Widen(s[..|s| - 1], a[..|a| - 1]);
    }
  }

  /** No common subsequence is longer than the recurrence says. */
  lemma {:induction false} LcsIsUpperBound<T>(a: seq<T>, b: seq<T>, s: seq<T>)
    requires Subsequence(s, a) && Subsequence(s, b)
    ensures |s| <= Lcs(a, b)
    decreases |a| + |b|
  {
    if s != [] {
      var a', b', s' := a[..|a| - 1], b[..|b| - 1], s[..|s| - 1];
      if a[|a| - 1] == b[|b| - 1] {
        DropLast(s, a);
        DropLast(s, b);
        LcsIsUpperBound(a', b', s');
      } else if s[|s| - 1] != a[|a| - 1] {
        LcsIsUpperBound(a', b, s);
      } else {
        LcsIsUpperBound(a, b', s);
      }
    }
  }

  /** Some common subsequence is that long. */
  lemma {:induction false} LcsIsAttained<T>(a: seq<T>, b: seq<T>) returns (s: seq<T>)
    ensures Subsequence(s, a) && Subsequence(s, b) && |s| == Lcs(a, b)
    decreases |a| + |b|
  {
    if a == [] || b == [] {
      s := [];
    } else {
      var a', b' := a[..|a| - 1], b[..|b| - 1];
      if a[|a| - 1] == b[|b| - 1] {
        var s' := LcsIsAttained(a', b');
        s := s' + [a[|a| - 1]];
        assert s[..|s| - 1] == s';
      } else if Lcs(a', b) > Lcs(a, b') {
        s := LcsIsAttained(a', b);
        Widen(s, a);
      } else {
        s := LcsIsAttained(a, b');
        Widen(s, b);
      }
    }
  }

  /** `n` is the length of a longest common subsequence, said without the recurrence. */
  ghost predicate IsLongest<T(!new)>(a: seq<T>, b: seq<T>, n: nat) {
    && (exists s: seq<T> :: Subsequence(s, a) && Subsequence(s, b) && |s| == n)
    && (forall s: seq<T> :: Subsequence(s, a) && Subsequence(s, b) ==> |s| <= n)
  }

  lemma LcsIsLongest<T(!new)>(a: seq<T>, b: seq<T>)
    ensures IsLongest(a, b, Lcs(a, b))
  {
    var s := LcsIsAttained(a, b);
    forall s: seq<T> | Subsequence(s, a) && Subsequence(s, b)
      ensures |s| <= Lcs(a, b)
    {
      LcsIsUpperBound(a, b, s);
    }
  }

  // ----- trimming loses nothing -----

  /** The last `n` characters of both inputs agree. */
  ghost predicate SameTail<T>(a: seq<T>, b: seq<T>, n: nat) {
    n <= |a| && n <= |b| && forall k: nat :: k < n ==> EndsAlike(a, b, k)
  }

  ghost predicate EndsAlike<T>(a: seq<T>, b: seq<T>, k: nat) {
    k < |a| && k < |b| && a[|a| - 1 - k] == b[|b| - 1 - k]
  }

  lemma {:induction false} TrimSuffix<T>(a: seq<T>, b: seq<T>, n: nat)
    requires SameTail(a, b, n)
    ensures Lcs(a, b) == Lcs(a[..|a| - n], b[..|b| - n]) + n
    decreases n
  {
    if n == 0 {
      assert a[..|a|] == a && b[..|b|] == b;
    } else {
      TrimSuffix(a, b, n - 1);
      assert EndsAlike(a, b, n - 1);
      var a1, b1 := a[..|a| - n + 1], b[..|b| - n + 1];
      assert a1[..|a1| - 1] == a[..|a| - n] && b1[..|b1| - 1] == b[..|b| - n];
    }
  }

  /** A shared character on the left counts one. */
  lemma {:induction false} Prepend<T>(x: T, a: seq<T>, b: seq<T>)
    ensures Lcs([x] + a, [x] + b) == Lcs(a, b) + 1
    decreases |a| + |b|
  {
    var xa, xb := [x] + a, [x] + b;
    if a == [] {
      assert xa == [x];
      FirstInCommon(x, xb);
    } else if b == [] {
      assert xb == [x];
      FirstAlone(xa, x);
    } else {
      var a', b' := a[..|a| - 1], b[..|b| - 1];
      assert xa[..|xa| - 1] == [x] + a' && xb[..|xb| - 1] == [x] + b';
      assert xa[|xa| - 1] == a[|a| - 1] && xb[|xb| - 1] == b[|b| - 1];
      Prepend(x, a', b');
      Prepend(x, a', b);
      Prepend(x, a, b');
    }
  }

  lemma {:induction false} FirstInCommon<T>(x: T, b: seq<T>)
    requires b != [] && b[0] == x
    ensures Lcs([x], b) == 1
    decreases |b|
  {
    if |b| > 1 {
      FirstInCommon(x, b[..|b| - 1]);
    }
  }

  lemma {:induction false} FirstAlone<T>(a: seq<T>, x: T)
    requires a != [] && a[0] == x
    ensures Lcs(a, [x]) == 1
    decreases |a|
  {
    if |a| > 1 {
      FirstAlone(a[..|a| - 1], x);
    }
  }

  lemma {:induction false} TrimPrefix<T>(head: seq<T>, a: seq<T>, b: seq<T>)
    ensures Lcs(head + a, head + b) == Lcs(a, b) + |head|
    decreases |head|
  {
    if head == [] {
      assert head + a == a && head + b == b;
    } else {
      assert head + a == [head[0]] + (head[1..] + a) && head + b == [head[0]] + (head[1..] + b);
      Prepend(head[0], head[1..] + a, head[1..] + b);
      TrimPrefix(head[1..], a, b);
    }
  }

  // ----- the algorithm -----

  const USIZE_MAX: nat := 0xFFFF_FFFF_FFFF_FFFF

  function SaturatingMul(x: nat, y: nat): nat {
    if x * y > USIZE_MAX then USIZE_MAX else x * y
  }

  /** The longest common prefix, scanned from position `n`. */
  function PrefixFrom<T(==)>(a: seq<T>, b: seq<T>, n: nat): (m: nat)
    requires n <= |a| && n <= |b|
    ensures n <= m <= |a| && m <= |b|
    ensures forall k :: n <= k < m ==> a[k] == b[k]
    ensures m < |a| && m < |b| ==> a[m] != b[m]
    decreases |a| - n
  {
    if n < |a| && n < |b| && a[n] == b[n] then PrefixFrom(a, b, n + 1) else n
  }

  function PrefixLength<T(==)>(a: seq<T>, b: seq<T>): nat {
    PrefixFrom(a, b, 0)
  }

  /** The longest common suffix, scanned from `n` characters before the end. */
  function SuffixFrom<T(==)>(a: seq<T>, b: seq<T>, n: nat): (m: nat)
    requires n <= |a| && n <= |b|
    ensures n <= m <= |a| && m <= |b|
    ensures forall k :: n <= k < m ==> EndsAlike(a, b, k)
    ensures m < |a| && m < |b| ==> a[|a| - 1 - m] != b[|b| - 1 - m]
    decreases |a| - n
  {
    if n < |a| && n < |b| && a[|a| - 1 - n] == b[|b| - 1 - n] then SuffixFrom(a, b, n + 1) else n
  }

  function SuffixLength<T(==)>(a: seq<T>, b: seq<T>): nat {
    SuffixFrom(a, b, 0)
  }

  method CommonPrefix<T(==)>(a: seq<T>, b: seq<T>) returns (n: nat)
    ensures n == PrefixLength(a, b)
  {
    n := 0;
    while n < |a| && n < |b| && a[n] == b[n]
      invariant n <= |a| && n <= |b|
      invariant PrefixFrom(a, b, n) == PrefixLength(a, b)
    {
      n := n + 1;
    }
  }

  method CommonSuffix<T(==)>(a: seq<T>, b: seq<T>) returns (n: nat)
    ensures n == SuffixLength(a, b)
  {
    n := 0;
    while n < |a| && n < |b| && a[|a| - 1 - n] == b[|b| - 1 - n]
      invariant n <= |a| && n <= |b|
      invariant SuffixFrom(a, b, n) == SuffixLength(a, b)
    {
      n := n + 1;
    }
  }

  /** One cell of the table from the three before it. */
  lemma CellStep<T>(before: seq<T>, code: seq<T>, at: nat, i: nat)
    requires at < |before| && i < |code|
    ensures Lcs(before[..at + 1], code[..i + 1]) ==
            if before[at] == code[i] then Lcs(before[..at], code[..i]) + 1
            else Max(Lcs(before[..at], code[..i + 1]), Lcs(before[..at + 1], code[..i]))
  {
    var a, b := before[..at + 1], code[..i + 1];
    assert a[..|a| - 1] == before[..at] && b[..|b| - 1] == code[..i];
  }

  ghost predicate RowIs<T>(row: array<nat>, before: seq<T>, code: seq<T>, upTo: nat)
    reads row
  {
    && row.Length == |before| + 1 && upTo <= |before|
    && forall j :: 0 <= j <= upTo ==> row[j] == Lcs(before[..j], code)
  }

  /** One row of the table from the row above it. */
  method FillRow<T(==)>(before: seq<T>, code: seq<T>, i: nat, previous: array<nat>, current: array<nat>)
    requires i < |code| && previous != current
    requires RowIs(previous, before, code[..i], |before|)
    requires current.Length == |before| + 1 && current[0] == 0
    modifies current
    ensures RowIs(current, before, code[..i + 1], |before|)
  {
    ghost var above, here := code[..i], code[..i + 1];
    assert Lcs(before[..0], here) == 0;
    for at := 0 to |before|
      invariant RowIs(current, before, here, at)
      invariant RowIs(previous, before, above, |before|)
    {
      CellStep(before, code, at, i);
      current[at + 1] :=
        if code[i] == before[at] then previous[at] + 1
        else if current[at] > previous[at + 1] then current[at] else previous[at + 1];
    }
  }

  /** The two-row table over the trimmed inputs. */
  method TableLcs<T(==)>(before: seq<T>, code: seq<T>) returns (common: nat)
    ensures common == Lcs(before, code)
  {
    var previous := new nat[|before| + 1](_ => 0);
    var current := new nat[|before| + 1](_ => 0);
    for i := 0 to |code|
      invariant previous != current && fresh(previous) && fresh(current)
      invariant current.Length == |before| + 1 && current[0] == 0
      invariant RowIs(previous, before, code[..i], |before|)
    {
      FillRow(before, code, i, previous, current);
      previous, current := current, previous;
    }
    assert before[..|before|] == before && code[..|code|] == code;
    common := previous[|before|];
  }

  function WithoutPrefix<T(==)>(a: seq<T>, b: seq<T>): (seq<T>, seq<T>) {
    (a[PrefixLength(a, b)..], b[PrefixLength(a, b)..])
  }

  function WithoutSuffix<T(==)>(a: seq<T>, b: seq<T>): (seq<T>, seq<T>) {
    (a[..|a| - SuffixLength(a, b)], b[..|b| - SuffixLength(a, b)])
  }

  /** What is left of both inputs without their longest common prefix and then without the longest
      common suffix of the rest. */
  function Trimmed<T(==)>(before: seq<T>, code: seq<T>): (seq<T>, seq<T>) {
    var rest := WithoutPrefix(before, code);
    WithoutSuffix(rest.0, rest.1)
  }

  /** `n` characters cut off both fronts and `m` off both ends, alike in both inputs. */
  ghost predicate Cut<T>(a: seq<T>, b: seq<T>, a': seq<T>, b': seq<T>, n: nat, m: nat) {
    && n + m + |a'| == |a| && n + m + |b'| == |b|
    && a[..n] == b[..n] && a[|a| - m..] == b[|b| - m..]
    && a' == a[n..|a| - m] && b' == b[n..|b| - m]
  }

  /** What trimming leaves: both inputs without one common prefix and one common suffix, and what is left
      neither begins nor ends alike. */
  lemma TrimmedIsTrimmed<T>(before: seq<T>, code: seq<T>)
    ensures var (b, c) := Trimmed(before, code);
            && (exists n: nat, m: nat :: Cut(before, code, b, c, n, m))
            && (b != [] && c != [] ==> b[0] != c[0] && b[|b| - 1] != c[|c| - 1])
  {
    hide Cut, PrefixLength, SuffixLength, WithoutPrefix, WithoutSuffix;
    var n, rest := PrefixLength(before, code), WithoutPrefix(before, code);
    var m := SuffixLength(rest.0, rest.1);
    PrefixCut(before, code);
    SuffixCut(rest.0, rest.1);
    CutTwice(before, code, rest.0, rest.1, n, m);
    assert Cut(before, code, Trimmed(before, code).0, Trimmed(before, code).1, n, m);
  }

  lemma PrefixCut<T>(a: seq<T>, b: seq<T>)
    ensures var n, rest := PrefixLength(a, b), WithoutPrefix(a, b);
            && n <= |a| && n <= |b| && a[..n] == b[..n] && rest.0 == a[n..] && rest.1 == b[n..]
            && (rest.0 != [] && rest.1 != [] ==> rest.0[0] != rest.1[0])
  {
  }

  lemma SuffixCut<T>(a: seq<T>, b: seq<T>)
    ensures var m, rest := SuffixLength(a, b), WithoutSuffix(a, b);
            && m <= |a| && m <= |b| && a[|a| - m..] == b[|b| - m..] && rest.0 == a[..|a| - m] && rest.1 == b[..|b| - m]
            && (rest.0 != [] && rest.1 != [] ==> rest.0[|rest.0| - 1] != rest.1[|rest.1| - 1])
            && (rest.0 != [] ==> rest.0[0] == a[0]) && (rest.1 != [] ==> rest.1[0] == b[0])
  {
    SameEnds(a, b, SuffixLength(a, b));
  }

  lemma CutTwice<T>(a: seq<T>, b: seq<T>, x: seq<T>, y: seq<T>, n: nat, m: nat)
    requires n <= |a| && n <= |b| && a[..n] == b[..n] && x == a[n..] && y == b[n..]
    requires m <= |x| && m <= |y| && x[|x| - m..] == y[|y| - m..]
    ensures Cut(a, b, x[..|x| - m], y[..|y| - m], n, m)
  {
    assert a[|a| - m..] == x[|x| - m..];
    assert b[|b| - m..] == y[|y| - m..];
  }

  lemma SameEnds<T>(a: seq<T>, b: seq<T>, m: nat)
    requires m <= |a| && m <= |b| && forall k :: 0 <= k < m ==> EndsAlike(a, b, k)
    ensures a[|a| - m..] == b[|b| - m..]
  {
    var x, y := a[|a| - m..], b[|b| - m..];
    forall k | 0 <= k < m
      ensures x[k] == y[k]
    {
      assert EndsAlike(a, b, m - 1 - k);
    }
  }

  lemma PrefixCounts<T>(a: seq<T>, b: seq<T>)
    ensures Lcs(a, b) == Lcs(WithoutPrefix(a, b).0, WithoutPrefix(a, b).1) + PrefixLength(a, b)
  {
    var n := PrefixLength(a, b);
    var head, a', b' := a[..n], a[n..], b[n..];
    assert a == head + a';
    assert b == head + b';
    TrimPrefix(head, a', b');
  }

  lemma SuffixCounts<T>(a: seq<T>, b: seq<T>)
    ensures Lcs(a, b) == Lcs(WithoutSuffix(a, b).0, WithoutSuffix(a, b).1) + SuffixLength(a, b)
  {
    TrimSuffix(a, b, SuffixLength(a, b));
  }

  /** Trimming takes the same number of characters off both inputs and off their longest common
      subsequence. */
  lemma TrimmedCounts<T>(before: seq<T>, code: seq<T>)
    ensures |code| - Lcs(before, code) == |Trimmed(before, code).1| - Lcs(Trimmed(before, code).0, Trimmed(before, code).1)
    ensures |before| - Lcs(before, code) == |Trimmed(before, code).0| - Lcs(Trimmed(before, code).0, Trimmed(before, code).1)
  {
    PrefixCounts(before, code);
    var rest := WithoutPrefix(before, code);
    SuffixCounts(rest.0, rest.1);
  }

  /** The trimming, as the two scans that find it. */
  method Trim<T(==)>(before: seq<T>, code: seq<T>) returns (b: seq<T>, c: seq<T>)
    ensures b == Trimmed(before, code).0 && c == Trimmed(before, code).1
  {
    var prefix := CommonPrefix(before, code);
    var before1, code1 := before[prefix..], code[prefix..];
    var suffix := CommonSuffix(before1, code1);
    b, c := before1[..|before1| - suffix], code1[..|code1| - suffix];
  }

  /** `changed_characters`, with the table bound as `limit`: no answer exactly when the trimmed table
      is over the bound, and otherwise what lies outside a longest common subsequence of the whole
      inputs. */
  method ChangedCharacters<T(==, !new)>(before: seq<T>, code: seq<T>, limit: nat) returns (changed: Option<(nat, nat)>)
    requires limit < USIZE_MAX
    ensures changed.None? <==> |Trimmed(before, code).0| * |Trimmed(before, code).1| > limit
    ensures IsLongest(before, code, Lcs(before, code))
    ensures changed.Some? ==>
              changed.value.0 == |code| - Lcs(before, code) && changed.value.1 == |before| - Lcs(before, code)
  {
    LcsIsLongest(before, code);
    var b, c := Trim(before, code);
    if SaturatingMul(|b|, |c|) > limit {
      return None;
    }
    var common := TableLcs(b, c);
    TrimmedCounts(before, code);
    return Some((|c| - common, |b| - common));
  }
}
