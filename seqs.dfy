/** Sequence operations shared by the two scripts: duplicates, first-seen order, prefixes, maxima. */
module Seqs {

  predicate NoDuplicates<T(==)>(s: seq<T>) {
    forall i, j :: 0 <= i < j < |s| ==> s[i] != s[j]
  }

  /** The index of the first occurrence of `x` in `s`. */
  function IndexOf<T(==)>(s: seq<T>, x: T): (i: nat)
    requires x in s
    ensures i < |s| && s[i] == x && x !in s[..i]
  {
    if s[0] == x then 0
    else
      var j := IndexOf(s[1..], x);
      assert s[..j + 1] == [s[0]] + s[1..][..j];
      j + 1
  }

  lemma IndexOfUnique<T>(s: seq<T>, x: T, i: nat)
    requires i < |s| && s[i] == x && x !in s[..i]
    ensures IndexOf(s, x) == i
  {
  }

  /** `s[:n]`: at most the first `n` elements. */
  function Take<T>(s: seq<T>, n: nat): (r: seq<T>)
    ensures |r| == if |s| <= n then |s| else n
    ensures r == s[..|r|]
  {
    if |s| <= n then s else s[..n]
  }

  /**
   * `list(dict.fromkeys(s))`: the elements of `s` without repetition, each at
   * the place of its first occurrence (see DedupFirstSeenOrder).
   */
  function Dedup<T(==,!new)>(s: seq<T>): (r: seq<T>)
    ensures NoDuplicates(r)
    ensures forall x :: x in r <==> x in s
  {
    if s == [] then []
    else
      var d := Dedup(s[..|s| - 1]);
      assert s == s[..|s| - 1] + [s[|s| - 1]];
      if s[|s| - 1] in d then d else d + [s[|s| - 1]]
  }

  /** Deduplication keeps the values in the order of their first occurrence. */
  lemma {:induction false} DedupFirstSeenOrder<T(!new)>(s: seq<T>)
    ensures forall i, j :: 0 <= i < j < |Dedup(s)| ==> IndexOf(s, Dedup(s)[i]) < IndexOf(s, Dedup(s)[j])
  {
    if s != [] {
      var init := s[..|s| - 1];
      var last := s[|s| - 1];
      var d := Dedup(init);
      DedupFirstSeenOrder(init);
      assert s == init + [last];
      forall y | y in init ensures IndexOf(s, y) == IndexOf(init, y) {
        var k := IndexOf(init, y);
        assert s[..k] == init[..k];
        IndexOfUnique(s, y, k);
      }
      var r := Dedup(s);
      if last !in d {
        assert last !in s[..|s| - 1];
        IndexOfUnique(s, last, |s| - 1);
      }
      assert r == d || (r == d + [last] && IndexOf(s, last) == |s| - 1);
      forall i, j | 0 <= i < j < |r| ensures IndexOf(s, r[i]) < IndexOf(s, r[j]) {
        assert r[i] == d[i] && d[i] in init;
        assert IndexOf(s, d[i]) == IndexOf(init, d[i]) < |init|;
        if j < |d| {
          assert r[j] == d[j] && d[j] in init;
          assert IndexOf(s, d[j]) == IndexOf(init, d[j]);
          assert IndexOf(init, d[i]) < IndexOf(init, d[j]);
        } else {
          assert r[j] == last;
        }
      }
    }
  }

  /** Deduplicating a longer list only adds to the end of the shorter one's result. */
  lemma {:induction false} DedupPrefix<T(!new)>(a: seq<T>, b: seq<T>)
    ensures |Dedup(a)| <= |Dedup(a + b)| && Dedup(a) == Dedup(a + b)[..|Dedup(a)|]
  {
    if b != [] {
      var ab := a + b;
      var init := b[..|b| - 1];
      assert ab[..|ab| - 1] == a + init;
      DedupPrefix(a, init);
      var d := Dedup(a + init);
      assert Dedup(ab) == d || Dedup(ab) == d + [ab[|ab| - 1]];
    } else {
      assert a + b == a;
    }
  }

  /** A list without repetitions is its own deduplication. */
  lemma {:induction false} DedupDistinct<T(!new)>(s: seq<T>)
    requires NoDuplicates(s)
    ensures Dedup(s) == s
  {
    if s != [] {
      var init := s[..|s| - 1];
      DedupDistinct(init);
      assert s == init + [s[|s| - 1]];
    }
  }

  function Max(xs: seq<int>): (m: int)
    requires xs != []
    ensures m in xs && forall x :: x in xs ==> x <= m
  {
    if |xs| == 1 then xs[0]
    else
      var rest := Max(xs[1..]);
      assert forall x :: x in xs ==> x == xs[0] || x in xs[1..];
      if xs[0] >= rest then xs[0] else rest
  }

  /** The maximum of a sub-collection never exceeds the maximum of the whole. */
  lemma MaxMonotone(xs: seq<int>, ys: seq<int>)
    requires xs != [] && forall x :: x in xs ==> x in ys
    ensures ys != [] && Max(xs) <= Max(ys)
  {
    assert Max(xs) in ys;
  }
}
