/** Sequence operations shared by the stores: sums, pagination windows and first-match search. */
module Seqs {
  import opened Wrappers

  function Min(a: int, b: int): int { if a <= b then a else b }

  /** Python's `sum(xs, start=0)`. */
  function Sum(xs: seq<int>): int
  {
    if xs == [] then 0 else xs[0] + Sum(xs[1..])
  }

  lemma {:induction false} SumConcat(a: seq<int>, b: seq<int>)
    ensures Sum(a + b) == Sum(a) + Sum(b)
  {
    if a == [] {
      assert a + b == b;
    } else {
      assert (a + b)[1..] == a[1..] + b;
      SumConcat(a[1..], b);
    }
  }

  /** Concatenation is associative; the filters' append lemmas regroup with it. */
  lemma ConcatAssociative<T>(a: seq<T>, b: seq<T>, c: seq<T>)
    ensures a + (b + c) == (a + b) + c
  {
  }

  lemma {:induction false} SumNonNegative(xs: seq<int>)
    requires forall i :: 0 <= i < |xs| ==> xs[i] >= 0
    ensures Sum(xs) >= 0
  {
    if xs != [] {
      SumNonNegative(xs[1..]);
    }
  }

  /**
   * `s[start:]` followed by `[:limit]` when it is longer than `limit`: the
   * page of at most `limit` elements that begins at zero-based `start`.
   */
  function Window<T>(s: seq<T>, start: nat, limit: nat): (r: seq<T>)
    ensures |r| == if start >= |s| then 0 else Min(limit, |s| - start)
    ensures forall i :: 0 <= i < |r| ==> r[i] == s[start + i]
  {
    var rest := if start <= |s| then s[start..] else [];
    if |rest| > limit then rest[..limit] else rest
  }

  /** Two consecutive pages together are the page as long as both. */
  lemma WindowsAdjoin<T>(s: seq<T>, start: nat, m: nat, n: nat)
    ensures Window(s, start, m) + Window(s, start + m, n) == Window(s, start, m + n)
  {
    var a, b, c := Window(s, start, m), Window(s, start + m, n), Window(s, start, m + n);
    assert |a + b| == |c|;
    forall i | 0 <= i < |c| ensures (a + b)[i] == c[i] {
      if i >= |a| {
        assert (a + b)[i] == b[i - |a|];
      }
    }
  }

  /** The window of the whole sequence is the sequence. */
  lemma WindowAll<T>(s: seq<T>)
    ensures Window(s, 0, |s|) == s
  {
    assert Window(s, 0, |s|) == s[0..];
  }

  /**
   * A `for` loop over `s` that returns the first element whose key is `k`,
   * and `None` when the loop runs out.
   */
  function FindFirst<T, K(==)>(s: seq<T>, key: T -> K, k: K): (r: Option<T>)
    ensures r.None? <==> forall i :: 0 <= i < |s| ==> key(s[i]) != k
    ensures r.Some? ==> r.value in s && key(r.value) == k
  {
    if s == [] then None
    else if key(s[0]) == k then Some(s[0])
    else FindFirst(s[1..], key, k)
  }

  /** The element found is the earliest one with the key. */
  lemma {:induction false} FindFirstIsEarliest<T, K>(s: seq<T>, key: T -> K, k: K)
    requires FindFirst(s, key, k).Some?
    ensures exists i :: 0 <= i < |s| && s[i] == FindFirst(s, key, k).value
                        && forall j :: 0 <= j < i ==> key(s[j]) != k
  {
    if key(s[0]) != k {
      FindFirstIsEarliest(s[1..], key, k);
      var i :| 0 <= i < |s[1..]| && s[1..][i] == FindFirst(s[1..], key, k).value
               && forall j :: 0 <= j < i ==> key(s[1..][j]) != k;
      assert s[i + 1] == FindFirst(s, key, k).value;
      forall j | 0 <= j < i + 1 ensures key(s[j]) != k {
        if j > 0 { assert s[j] == s[1..][j - 1]; }
      }
    } else {
      assert s[0] == FindFirst(s, key, k).value;
    }
  }

  /**
   * Searching after an append: an earlier match still wins; otherwise the
   * appended element is found exactly when its key matches.
   */
  lemma {:induction false} FindFirstAppend<T, K>(s: seq<T>, x: T, key: T -> K, k: K)
    ensures FindFirst(s + [x], key, k) ==
              if FindFirst(s, key, k).Some? then FindFirst(s, key, k)
              else if key(x) == k then Some(x)
              else None
  {
    if s == [] {
      assert s + [x] == [x];
      assert [x][1..] == [];
    } else {
      assert (s + [x])[1..] == s[1..] + [x];
      FindFirstAppend(s[1..], x, key, k);
    }
  }

  /** Appending never changes a search that already succeeds. */
  lemma {:induction false} FindFirstConcat<T, K>(s: seq<T>, t: seq<T>, key: T -> K, k: K)
    requires FindFirst(s, key, k).Some?
    ensures FindFirst(s + t, key, k) == FindFirst(s, key, k)
  {
    if key(s[0]) != k {
      assert (s + t)[1..] == s[1..] + t;
      FindFirstConcat(s[1..], t, key, k);
    }
  }

  /**
   * The elements whose key is `k`, in their original order: a query with a
   * `where key == k` clause.
   */
  function Select<T(!new), K(==)>(s: seq<T>, key: T -> K, k: K): (r: seq<T>)
    ensures forall x :: x in r <==> x in s && key(x) == k
    ensures |r| <= |s|
  {
    if s == [] then []
    else
      assert forall x :: x in s ==> x == s[0] || x in s[1..];
      (if key(s[0]) == k then [s[0]] else []) + Select(s[1..], key, k)
  }

  /** No two positions of `s` share a key: a unique column. */
  ghost predicate KeysDistinct<T, K>(s: seq<T>, key: T -> K)
  {
    forall i, j :: 0 <= i < |s| && 0 <= j < |s| && key(s[i]) == key(s[j]) ==> i == j
  }

  /** The query is empty exactly when no element has the key. */
  lemma {:induction false} SelectNone<T(!new), K>(s: seq<T>, key: T -> K, k: K)
    ensures (forall x :: x in s ==> key(x) != k) <==> Select(s, key, k) == []
  {
    if Select(s, key, k) != [] {
      assert Select(s, key, k)[0] in Select(s, key, k);
    }
  }

  /** Over a unique column the query has at most one element. */
  lemma {:induction false} SelectDistinct<T(!new), K>(s: seq<T>, key: T -> K, k: K)
    requires KeysDistinct(s, key)
    ensures |Select(s, key, k)| <= 1
  {
    if s != [] {
      var rest := s[1..];
      assert KeysDistinct(rest, key) by {
        forall i, j | 0 <= i < |rest| && 0 <= j < |rest| && key(rest[i]) == key(rest[j])
          ensures i == j
        {
          assert s[i + 1] == rest[i] && s[j + 1] == rest[j];
        }
      }
      SelectDistinct(rest, key, k);
      if key(s[0]) == k {
        forall x | x in rest ensures key(x) != k {
          var n :| 0 <= n < |rest| && rest[n] == x;
          assert s[n + 1] == x;
        }
        SelectNone(rest, key, k);
      }
    }
  }

  /** The query distributes over concatenation, so it keeps the relative order of what it keeps. */
  lemma {:induction false} SelectConcat<T(!new), K>(a: seq<T>, b: seq<T>, key: T -> K, k: K)
    ensures Select(a + b, key, k) == Select(a, key, k) + Select(b, key, k)
  {
    if a == [] {
      assert a + b == b;
    } else {
      var head := if key(a[0]) == k then [a[0]] else [];
      assert Select(a + b, key, k) == head + Select(a[1..] + b, key, k) by {
        assert (a + b)[0] == a[0];
        assert (a + b)[1..] == a[1..] + b;
      }
      SelectConcat(a[1..], b, key, k);
      ConcatAssociative(head, Select(a[1..], key, k), Select(b, key, k));
    }
  }

  /** Appending an element appends it to the query when its key matches. */
  lemma SelectAppend<T(!new), K>(s: seq<T>, x: T, key: T -> K, k: K)
    ensures Select(s + [x], key, k) == Select(s, key, k) + (if key(x) == k then [x] else [])
  {
    SelectConcat(s, [x], key, k);
    assert Select([x], key, k) == (if key(x) == k then [x] else []) + Select([], key, k) by {
      assert [x][0] == x;
      assert [x][1..] == [];
    }
  }
}
