/** Sequence helpers: the substring relation and the search for it. */
module Seqs {

  /** `k` occurs as a contiguous block of `s` (Python's `k in s` on strings). */
  predicate IsSubstring<T(==)>(k: seq<T>, s: seq<T>)
  {
    exists i | 0 <= i <= |s| :: OccursAt(k, s, i)
  }

  /** `k` occurs in `s` starting at index `i`. */
  predicate OccursAt<T(==)>(k: seq<T>, s: seq<T>, i: int)
  {
    0 <= i <= |s| - |k| && s[i..i + |k|] == k
  }

  /** Python's `k in s` as the search does it: is there a match of `k` at `i` or later? */
  function ContainsFrom<T(==)>(s: seq<T>, k: seq<T>, i: nat): bool
    decreases |s| - i
  {
    if i + |k| > |s| then false else s[i..i + |k|] == k || ContainsFrom(s, k, i + 1)
  }

  function Contains<T(==)>(s: seq<T>, k: seq<T>): bool
  {
    ContainsFrom(s, k, 0)
  }

  lemma {:induction false} ContainsFromOccurs<T>(s: seq<T>, k: seq<T>, i: nat)
    ensures ContainsFrom(s, k, i) <==> exists j :: i <= j && OccursAt(k, s, j)
    decreases |s| - i
  {
    if i + |k| <= |s| {
      ContainsFromOccurs(s, k, i + 1);
      if ContainsFrom(s, k, i) && s[i..i + |k|] == k {
        assert OccursAt(k, s, i);
      }
    }
  }

  /** The search finds `k` in `s` exactly when `k` is a substring of `s`. */
  lemma ContainsIsSubstring<T>(s: seq<T>, k: seq<T>)
    ensures Contains(s, k) <==> IsSubstring(k, s)
  {
    ContainsFromOccurs(s, k, 0);
    if Contains(s, k) {
      var j :| 0 <= j && OccursAt(k, s, j);
      assert 0 <= j <= |s|;
    }
  }

  /** The substring relation is transitive. */
  lemma SubstringTransitive<T>(a: seq<T>, b: seq<T>, c: seq<T>)
    requires IsSubstring(a, b) && IsSubstring(b, c)
    ensures IsSubstring(a, c)
  {
    var i :| 0 <= i <= |b| && OccursAt(a, b, i);
    var j :| 0 <= j <= |c| && OccursAt(b, c, j);
    forall t | 0 <= t < |a|
      ensures c[j + i + t] == a[t]
    {
      assert b[i + t] == a[t];
      assert c[j + (i + t)] == b[i + t];
    }
    assert c[j + i..j + i + |a|] == a;
    assert OccursAt(a, c, j + i);
  }

  /** The second part of a concatenation occurs in it. */
  lemma SuffixIsSubstring<T>(a: seq<T>, b: seq<T>)
    ensures IsSubstring(b, a + b)
  {
    assert (a + b)[|a|..|a| + |b|] == b;
    assert OccursAt(b, a + b, |a|);
  }

  /** What occurs in `a` occurs in `a + b`. */
  lemma SubstringOfPrefix<T>(k: seq<T>, a: seq<T>, b: seq<T>)
    requires IsSubstring(k, a)
    ensures IsSubstring(k, a + b)
  {
    var i :| 0 <= i <= |a| && OccursAt(k, a, i);
    assert (a + b)[i..i + |k|] == a[i..i + |k|];
    assert OccursAt(k, a + b, i);
  }
}
