/** Items and their owners: sequences without repetition, and counting who has what. */
module Ownership {

  ghost predicate Distinct<T>(s: seq<T>) {
    forall i, j | 0 <= i < j < |s| :: s[i] != s[j]
  }

  lemma {:induction false} DistinctCounts<T>(s: seq<T>, x: T)
    requires Distinct(s)
    ensures multiset(s)[x] <= 1
  {
    if s != [] {
      assert s == [s[0]] + s[1..];
      DistinctCounts(s[1..], x);
      if x == s[0] { assert x !in multiset(s[1..]); }
    }
  }

  lemma TwiceCounts<T>(s: seq<T>, i: nat, j: nat)
    requires i < j < |s| && s[i] == s[j]
    ensures multiset(s)[s[i]] >= 2
  {
    assert s == s[..j] + s[j..];
    assert s[i] in s[..j] && s[i] in s[j..];
  }

  /** Rearranging a sequence without repetition gives one. */
  lemma RearrangedDistinct<T>(s: seq<T>, t: seq<T>)
    requires multiset(s) == multiset(t) && Distinct(t)
    ensures Distinct(s)
  {
    forall i, j | 0 <= i < j < |s| ensures s[i] != s[j] {
      if s[i] == s[j] {
        TwiceCounts(s, i, j);
        DistinctCounts(t, s[i]);
      }
    }
  }

  // ---- Counting

  /** The numbers below `n`, which name `n` buffers. */
  function Indices(n: nat): seq<nat> {
    seq(n, i requires 0 <= i < n => i)
  }

  /** How often `x` is in `q`. */
  function Copies(q: seq<nat>, x: nat): nat {
    multiset(q)[x]
  }

  lemma CopiesJoin(p: seq<nat>, q: seq<nat>, x: nat)
    ensures Copies(p + q, x) == Copies(p, x) + Copies(q, x)
  {}

  lemma CopiesOne(y: nat, x: nat)
    ensures Copies([y], x) == if y == x then 1 else 0
    ensures Copies([], x) == 0
  {}

  lemma {:induction false} IndicesOnce(n: nat, x: nat)
    ensures Copies(Indices(n), x) == if x < n then 1 else 0
  {
    if n > 0 {
      IndicesOnce(n - 1, x);
      assert Indices(n) == Indices(n - 1) + [n - 1];
    }
  }

  /** A pool push finds room or fails, which its callers here do not check. */
  function PushIfRoom(pool: seq<nat>, size: nat, block: nat): seq<nat> {
    if |pool| < size then pool + [block] else pool
  }
}
