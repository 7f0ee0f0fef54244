/**
 * List facts the catalog and user code share: duplicate-free lists, the
 * cardinality of the set a list holds, and the "first k by a score" selection
 * behind `order_by(...)[:k]`.
 */
module Seqs {
  import opened Wrappers

  /** Converts every element, or gives None when any conversion fails (a list comprehension that may raise). */
  function MapAll<A, B>(xs: seq<A>, f: A -> Option<B>): (r: Option<seq<B>>)
    ensures r.Some? <==> forall k :: 0 <= k < |xs| ==> f(xs[k]).Some?
    ensures r.Some? ==> |r.value| == |xs| && forall k :: 0 <= k < |xs| ==> f(xs[k]) == Some(r.value[k])
  {
    if xs == [] then Some([])
    else
      assert forall k :: 1 <= k < |xs| ==> xs[k] == xs[1..][k - 1];
      var t := MapAll(xs[1..], f);
      if f(xs[0]).None? || t.None? then None else Some([f(xs[0]).value] + t.value)
  }

  predicate Distinct<T(==)>(s: seq<T>)
  {
    forall i, j :: 0 <= i < j < |s| ==> s[i] != s[j]
  }

  /** `Math.ceil(n / size)`: the fewest blocks of `size` that hold `n` things; none for nothing. */
  function CeilDiv(n: nat, size: nat): (t: nat)
    requires size > 0
    ensures t * size >= n
    ensures t > 0 ==> (t - 1) * size < n
    ensures t == 0 <==> n == 0
  {
    var t := (n + size - 1) / size;
    assert n + size - 1 == t * size + (n + size - 1) % size;
    t
  }

  /** `a` is `b` with some elements left out, the rest in their order. */
  predicate SubsequenceOf<T(==)>(a: seq<T>, b: seq<T>)
    decreases |b|
  {
    if a == [] then true
    else if b == [] then false
    else if a[0] == b[0] then SubsequenceOf(a[1..], b[1..])
    else SubsequenceOf(a, b[1..])
  }

  /** The elements `keep` accepts, in their order (`filter`). */
  function Select<T(==,!new)>(xs: seq<T>, keep: T -> bool): (r: seq<T>)
    ensures forall x :: x in r <==> x in xs && keep(x)
    ensures Distinct(xs) ==> Distinct(r)
    ensures |r| <= |xs|
  {
    if xs == [] then []
    else
      assert Distinct(xs) ==> Distinct(xs[1..]) && xs[0] !in xs[1..];
      (if keep(xs[0]) then [xs[0]] else []) + Select(xs[1..], keep)
  }

  function Elems<T(==)>(s: seq<T>): set<T>
  {
    set x | x in s
  }

  /** In a list without duplicates, equal elements sit at the same index. */
  lemma DistinctIndices<T>(s: seq<T>, a: nat, b: nat)
    requires Distinct(s) && a < |s| && b < |s| && s[a] == s[b]
    ensures a == b
  {
  }

  /** A list holds at most as many different values as it is long, and exactly as many iff it has no duplicates. */
  lemma {:induction false} DistinctCard<T>(s: seq<T>)
    ensures |Elems(s)| <= |s|
    ensures |Elems(s)| == |s| <==> Distinct(s)
  {
    if s != [] {
      var init, x := s[..|s| - 1], s[|s| - 1];
      DistinctCard(init);
      assert s == init + [x];
      assert Elems(s) == Elems(init) + {x};
      if x in init {
        assert Elems(s) == Elems(init);
        var i :| 0 <= i < |init| && init[i] == x;
        assert s[i] == s[|s| - 1];
      } else {
        assert |Elems(s)| == |Elems(init)| + 1;
        if Distinct(init) {
          forall i, j | 0 <= i < j < |s|
            ensures s[i] != s[j]
          {
            if j < |s| - 1 {
              assert s[i] == init[i] && s[j] == init[j];
            } else {
              assert s[i] == init[i];
            }
          }
        } else {
          var i, j :| 0 <= i < j < |init| && init[i] == init[j];
          assert s[i] == s[j];
        }
      }
    }
  }

  /** A subset is no larger than its superset, and as large only when it is the superset. */
  lemma SubsetCard<T>(a: set<T>, b: set<T>)
    requires a <= b
    ensures |a| <= |b|
    ensures |a| == |b| ==> a == b
  {
    assert b == a + (b - a);
    assert |b| == |a| + |b - a|;
    if |a| == |b| {
      assert |b - a| == 0;
      assert b - a == {};
    }
  }

  /** Every key has a score, and the list offers each key once. */
  predicate Ranked(cands: seq<nat>, score: map<nat, int>)
  {
    Distinct(cands) && forall c :: c in cands ==> c in score
  }

  /** Scores do not increase along the list. */
  predicate NonIncreasing(r: seq<nat>, score: map<nat, int>)
    requires forall c :: c in r ==> c in score
  {
    forall i, j :: 0 <= i < j < |r| ==> score[r[i]] >= score[r[j]]
  }

  /**
   * The first `k` candidates when sorted by descending score, as
   * `order_by('-score')[:k]` returns them. Ties go to the earlier candidate;
   * the database leaves their order open, which the contract reflects.
   */
  method TopK(cands: seq<nat>, score: map<nat, int>, k: nat) returns (r: seq<nat>)
    requires Ranked(cands, score)
    ensures |r| == if k < |cands| then k else |cands|
    ensures Distinct(r) && forall c :: c in r ==> c in cands
    ensures NonIncreasing(r, score)
    ensures forall c, j :: c in cands && c !in r && 0 <= j < |r| ==> score[c] <= score[r[j]]
  {
    r := [];
    while |r| < k && |r| < |cands|
      invariant |r| <= k && |r| <= |cands|
      invariant Distinct(r) && forall c :: c in r ==> c in cands
      invariant NonIncreasing(r, score)
      invariant forall c, j :: c in cands && c !in r && 0 <= j < |r| ==> score[c] <= score[r[j]]
      decreases |cands| - |r|
    {
      DistinctCard(r);
      DistinctCard(cands);
      if forall c :: c in cands ==> c in r {
        SubsetCard(Elems(cands), Elems(r));
        assert false;
      }
      var best := -1;
      var i := 0;
      while i < |cands|
        invariant 0 <= i <= |cands|
        invariant best == -1 ==> forall j :: 0 <= j < i ==> cands[j] in r
        invariant best != -1 ==> 0 <= best < i && cands[best] !in r
        invariant best != -1 ==> forall j :: 0 <= j < i && cands[j] !in r ==> score[cands[j]] <= score[cands[best]]
      {
        if cands[i] !in r && (best == -1 || score[cands[i]] > score[cands[best]]) {
          best := i;
        }
        i := i + 1;
      }
      assert best != -1;
      r := r + [cands[best]];
    }
  }
}
