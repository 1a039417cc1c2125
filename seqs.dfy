/** Order-preserving list primitives shared by every component: `Array.prototype.filter`,
    `map` and counting with `filter(...).length`. */
module Seqs {

  /** `s.filter(p)`: the elements satisfying `p`, in their original order. */
  function Filter<T>(p: T -> bool, s: seq<T>): (r: seq<T>)
    ensures |r| <= |s|
  {
    if s == [] then [] else (if p(s[0]) then [s[0]] else []) + Filter(p, s[1..])
  }

  /** An element is kept exactly when it is in the list and satisfies the predicate. */
  lemma {:induction false} FilterMembers<T>(p: T -> bool, s: seq<T>)
    ensures forall i :: 0 <= i < |Filter(p, s)| ==> Filter(p, s)[i] in s && p(Filter(p, s)[i])
    ensures forall i :: 0 <= i < |s| && p(s[i]) ==> s[i] in Filter(p, s)
  {
    if s != [] {
      FilterMembers(p, s[1..]);
      var head := if p(s[0]) then [s[0]] else [];
      assert Filter(p, s) == head + Filter(p, s[1..]);
      forall i | 0 <= i < |s| && p(s[i]) ensures s[i] in Filter(p, s) {
        if i > 0 { assert s[i] == s[1..][i - 1]; }
      }
    }
  }

  /** Every element kept is bounded below by the bound of the whole list. */
  lemma {:induction false} FilterAbove<T>(p: T -> bool, key: T -> int, s: seq<T>, b: int)
    requires forall i :: 0 <= i < |s| ==> b < key(s[i])
    ensures forall i :: 0 <= i < |Filter(p, s)| ==> b < key(Filter(p, s)[i])
  {
    FilterMembers(p, s);
  }

  /** A list whose keys increase keeps them increasing, adjacent kept elements included. */
  lemma {:induction false} FilterIncreasing<T>(p: T -> bool, key: T -> int, s: seq<T>)
    requires forall i, j :: 0 <= i < j < |s| ==> key(s[i]) < key(s[j])
    ensures forall i :: 0 < i < |Filter(p, s)| ==> key(Filter(p, s)[i - 1]) < key(Filter(p, s)[i])
  {
    if s != [] {
      var t := s[1..];
      assert forall i, j :: 0 <= i < j < |t| ==> key(t[i]) < key(t[j]) by {
        forall i, j | 0 <= i < j < |t| ensures key(t[i]) < key(t[j]) {
          assert t[i] == s[i + 1] && t[j] == s[j + 1];
        }
      }
      FilterIncreasing(p, key, t);
      var tail := Filter(p, t);
      var r := Filter(p, s);
      if p(s[0]) {
        assert forall i :: 0 <= i < |t| ==> key(s[0]) < key(t[i]) by {
          forall i | 0 <= i < |t| ensures key(s[0]) < key(t[i]) {
            assert t[i] == s[i + 1];
          }
        }
        FilterAbove(p, key, t, key(s[0]));
        assert r == [s[0]] + tail;
        forall i | 0 < i < |r| ensures key(r[i - 1]) < key(r[i]) {
          assert r[i] == tail[i - 1];
          if i > 1 { assert r[i - 1] == tail[i - 2]; }
        }
      } else {
        assert r == tail;
      }
    }
  }
  /** `s.map(f)`. */
  function Map<T, U>(f: T -> U, s: seq<T>): (r: seq<U>)
    ensures |r| == |s|
    ensures forall i :: 0 <= i < |s| ==> r[i] == f(s[i])
  {
    seq(|s|, i requires 0 <= i < |s| => f(s[i]))
  }

  /** Mapping distributes over concatenation. */
  lemma MapAppend<T, U>(f: T -> U, a: seq<T>, b: seq<T>)
    ensures Map(f, a + b) == Map(f, a) + Map(f, b)
  {
    assert forall i :: 0 <= i < |a + b| ==> Map(f, a + b)[i] == (Map(f, a) + Map(f, b))[i];
  }

  /** `s.filter(p).length`. */
  function Count<T>(p: T -> bool, s: seq<T>): (n: nat)
    ensures n <= |s|
  {
    if s == [] then 0 else (if p(s[0]) then 1 else 0) + Count(p, s[1..])
  }

  /** Filtering distributes over concatenation; this is what "order is preserved" means. */
  lemma {:induction false} FilterAppend<T>(p: T -> bool, a: seq<T>, b: seq<T>)
    ensures Filter(p, a + b) == Filter(p, a) + Filter(p, b)
  {
    if a == [] {
      assert a + b == b;
    } else {
      var head := if p(a[0]) then [a[0]] else [];
      calc {
        Filter(p, a + b);
        == { assert (a + b)[0] == a[0]; assert (a + b)[1..] == a[1..] + b; }
        head + Filter(p, a[1..] + b);
        == { FilterAppend(p, a[1..], b); }
        head + (Filter(p, a[1..]) + Filter(p, b));
      }
    }
  }

  lemma FilterSingleton<T>(p: T -> bool, x: T)
    ensures Filter(p, [x]) == if p(x) then [x] else []
  {
    assert [x][1..] == [];
  }

  /** Counting is the length of the filtered list. */
  lemma {:induction false} CountIsFilterLength<T>(p: T -> bool, s: seq<T>)
    ensures Count(p, s) == |Filter(p, s)|
  {
    if s != [] {
      CountIsFilterLength(p, s[1..]);
    }
  }

  /** A filter whose predicate holds everywhere keeps the whole list. */
  lemma {:induction false} FilterAll<T>(p: T -> bool, s: seq<T>)
    requires forall i :: 0 <= i < |s| ==> p(s[i])
    ensures Filter(p, s) == s
  {
    if s != [] {
      FilterAll(p, s[1..]);
    }
  }

  /** `s.slice(-k)` for `k > 0`: the last `min(k, |s|)` elements. */
  function LastN<T>(s: seq<T>, k: nat): (r: seq<T>)
    ensures |r| == if |s| < k then |s| else k
    ensures forall i :: 0 <= i < |r| ==> r[i] == s[|s| - |r| + i]
  {
    if |s| <= k then s else s[|s| - k..]
  }

  /** `s.slice(0, k)`: the first `min(k, |s|)` elements. */
  function Take<T>(s: seq<T>, k: nat): (r: seq<T>)
    ensures |r| == if |s| < k then |s| else k
    ensures r <= s
  {
    if |s| <= k then s else s[..k]
  }
}
