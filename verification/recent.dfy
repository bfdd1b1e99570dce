/** The newest few of a list: a backward scan with a limit, then reversal in place. */
module Recent {

  function Filter<T>(s: seq<T>, keep: T -> bool): (r: seq<T>) {
    if s == [] then [] else Filter(s[..|s| - 1], keep) + if keep(s[|s| - 1]) then [s[|s| - 1]] else []
  }

  function LastN<T>(s: seq<T>, n: nat): (r: seq<T>) {
    if |s| <= n then s else s[|s| - n..]
  }

  /** The longest suffix of at most `n` elements. */
  lemma LastNIsSuffix<T>(s: seq<T>, n: nat, from: nat)
    requires from <= |s|
    ensures LastN(s, n) == s[from..] <==> if |s| <= n then from == 0 else |s| - from == n
  {
    assert |s[from..]| == |s| - from;
    assert s[0..] == s;
  }

  function Reversed<T>(s: seq<T>): (r: seq<T>)
    ensures |r| == |s|
    ensures forall i | 0 <= i < |s| :: r[i] == s[|s| - 1 - i]
  {
    seq(|s|, i requires 0 <= i < |s| => s[|s| - 1 - i])
  }

  method ReverseInPlace<T>(a: array<T>)
    modifies a
    ensures a[..] == Reversed(old(a[..]))
  {
    var i, j := 0, a.Length - 1;
    while i < j
      invariant 0 <= i <= j + 1 <= a.Length && i + j == a.Length - 1
      invariant forall k | 0 <= k < i || j < k < a.Length :: a[k] == old(a[a.Length - 1 - k])
      invariant forall k | i <= k <= j :: a[k] == old(a[k])
    {
      a[i], a[j] := a[j], a[i];
      i, j := i + 1, j - 1;
    }
  }

  /** The scan collects newest first and stops at the limit; reversed, that is the last `limit` kept rows in order. */
  method ScanBack<T>(rows: seq<T>, keep: T -> bool, limit: nat) returns (picked: seq<T>)
    ensures picked == LastN(Filter(rows, keep), limit)
  {
    hide Filter;
    hide Reversed;
    hide LastN;
    var found: seq<T> := [];
    var i := |rows| - 1;
    assert rows[..|rows|] == rows && Filter(rows, keep) + Reversed(found) == Filter(rows, keep);
    while i >= 0 && |found| < limit
      invariant -1 <= i < |rows| && |found| <= limit
      invariant Filter(rows, keep) == Filter(rows[..i + 1], keep) + Reversed(found)
    {
      ScanOne(rows, keep, i, found);
      if keep(rows[i]) {
        found := found + [rows[i]];
      }
      i := i - 1;
    }
    ScanEnd(rows, keep, i, found, limit);
    var a := new T[|found|](k requires 0 <= k < |found| => found[k]);
    assert a[..] == found;
    ReverseInPlace(a);
    picked := a[..];
  }

  lemma ScanOne<T>(rows: seq<T>, keep: T -> bool, i: nat, found: seq<T>)
    requires i < |rows|
    ensures Filter(rows[..i + 1], keep) + Reversed(found)
            == Filter(rows[..i], keep) + Reversed(if keep(rows[i]) then found + [rows[i]] else found)
  {
    assert rows[..i + 1][..i] == rows[..i];
    assert Reversed(found + [rows[i]]) == [rows[i]] + Reversed(found);
    assert Filter(rows[..i + 1], keep) == Filter(rows[..i], keep) + if keep(rows[i]) then [rows[i]] else [];
  }

  lemma ScanEnd<T>(rows: seq<T>, keep: T -> bool, i: int, found: seq<T>, limit: nat)
    requires -1 <= i < |rows| && |found| <= limit && (i < 0 || |found| == limit)
    requires Filter(rows, keep) == Filter(rows[..i + 1], keep) + Reversed(found)
    ensures LastN(Filter(rows, keep), limit) == Reversed(found)
  {
    hide Reversed;
    if i < 0 {
      assert Filter(rows[..0], keep) == [];
    }
  }

  /** What is kept keeps its order and nothing else appears. */
  lemma {:induction false} FilterKeeps<T>(s: seq<T>, keep: T -> bool)
    ensures forall x :: x in Filter(s, keep) <==> x in s && keep(x)
  {
    if s != [] {
      FilterKeeps(s[..|s| - 1], keep);
      assert s == s[..|s| - 1] + [s[|s| - 1]];
    }
  }

  lemma {:induction false} FilterConcat<T>(a: seq<T>, b: seq<T>, keep: T -> bool)
    ensures Filter(a + b, keep) == Filter(a, keep) + Filter(b, keep)
  {
    if b == [] {
      assert a + b == a;
    } else {
      assert (a + b)[..|a + b| - 1] == a + b[..|b| - 1];
      FilterConcat(a, b[..|b| - 1], keep);
    }
  }

  /** Two filters may be applied in either order. */
  lemma {:induction false} FilterSwap<T>(s: seq<T>, p: T -> bool, q: T -> bool)
    ensures Filter(Filter(s, p), q) == Filter(Filter(s, q), p)
  {
    if s != [] {
      var front, last := s[..|s| - 1], s[|s| - 1];
      FilterSwap(front, p, q);
      FilterConcat(Filter(front, p), if p(last) then [last] else [], q);
      FilterConcat(Filter(front, q), if q(last) then [last] else [], p);
    }
  }

  lemma {:induction false} FilterAll<T>(s: seq<T>, keep: T -> bool)
    requires forall k | 0 <= k < |s| :: keep(s[k])
    ensures Filter(s, keep) == s
  {
    if s != [] {
      FilterAll(s[..|s| - 1], keep);
    }
  }

  lemma {:induction false} FilterNone<T>(s: seq<T>, keep: T -> bool)
    requires forall k | 0 <= k < |s| :: !keep(s[k])
    ensures Filter(s, keep) == []
  {
    if s != [] {
      FilterNone(s[..|s| - 1], keep);
    }
  }
}
