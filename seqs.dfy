/** `Array.prototype.filter` on sequences, and the facts the components rely on. */
module Seqs {

  /** The elements of `s` that satisfy `p`, in their original order. */
  function Keep<T(!new)>(s: seq<T>, p: T -> bool): (r: seq<T>)
    ensures |r| <= |s|
    ensures forall x {:trigger multiset(r)[x]} :: multiset(r)[x] == if p(x) then multiset(s)[x] else 0
    ensures forall x {:trigger x in r} :: x in r <==> x in s && p(x)
  {
    if s == [] then []
    else
      var init, last := s[..|s| - 1], s[|s| - 1];
      assert s == init + [last];
      Keep(init, p) + if p(last) then [last] else []
  }

  /** Filtering distributes over concatenation, so the kept elements keep their relative order. */
  lemma {:induction false} KeepConcat<T(!new)>(a: seq<T>, b: seq<T>, p: T -> bool)
    ensures Keep(a + b, p) == Keep(a, p) + Keep(b, p)
  {
    if b == [] {
      assert a + b == a;
    } else {
      var init, last := b[..|b| - 1], b[|b| - 1];
      var tail := if p(last) then [last] else [];
      var ab := a + b;
      assert ab[..|ab| - 1] == a + init && ab[|ab| - 1] == last;
      assert Keep(ab, p) == Keep(a + init, p) + tail;
      KeepConcat(a, init, p);
      assert Keep(b, p) == Keep(init, p) + tail;
    }
  }

  /** Filtering by a predicate and by its negation splits the sequence. */
  lemma {:induction false} KeepPartition<T(!new)>(s: seq<T>, p: T -> bool, q: T -> bool)
    requires forall x :: q(x) == !p(x)
    ensures |Keep(s, p)| + |Keep(s, q)| == |s|
  {
    if s != [] {
      KeepPartition(s[..|s| - 1], p, q);
    }
  }

  /** A weaker predicate keeps at least as many elements. */
  lemma {:induction false} KeepMonotone<T(!new)>(s: seq<T>, p: T -> bool, q: T -> bool)
    requires forall x :: p(x) ==> q(x)
    ensures |Keep(s, p)| <= |Keep(s, q)|
  {
    if s != [] {
      KeepMonotone(s[..|s| - 1], p, q);
    }
  }

  /** Two leading elements that are not both kept can trade places without changing the filter. */
  lemma KeepSwapHeads<T(!new)>(a: T, b: T, t: seq<T>, p: T -> bool)
    requires !(p(a) && p(b))
    ensures Keep([a] + ([b] + t), p) == Keep([b] + ([a] + t), p)
  {
    KeepConcat([a], [b] + t, p);
    KeepConcat([b], t, p);
    KeepConcat([b], [a] + t, p);
    KeepConcat([a], t, p);
    assert [a][..0] == [] && [b][..0] == [];
  }

  /** A predicate that holds of every element keeps the whole sequence. */
  lemma {:induction false} KeepAll<T(!new)>(s: seq<T>, p: T -> bool)
    requires forall x :: x in s ==> p(x)
    ensures Keep(s, p) == s
  {
    if s != [] {
      assert s == s[..|s| - 1] + [s[|s| - 1]];
      KeepAll(s[..|s| - 1], p);
    }
  }

  /** The positions of `s` whose element satisfies `p`: the reference count of a filter. */
  function Positions<T>(s: seq<T>, p: T -> bool): set<nat> {
    set i: nat | i < |s| && p(s[i])
  }

  /** `filter(p).length` counts the positions whose element satisfies `p`. */
  lemma {:induction false} KeepCountsPositions<T(!new)>(s: seq<T>, p: T -> bool)
    ensures |Keep(s, p)| == |Positions(s, p)|
  {
    if s == [] {
      assert Positions(s, p) == {};
    } else {
      var init, last := s[..|s| - 1], s[|s| - 1];
      KeepCountsPositions(init, p);
      var n: nat := |s| - 1;
      var extra: set<nat> := if p(last) then {n} else {};
      forall i: nat ensures i in Positions(s, p) <==> i in Positions(init, p) + extra {
        if i < n {
          assert s[i] == init[i];
        }
      }
      assert Positions(s, p) == Positions(init, p) + extra;
      assert n !in Positions(init, p);
      assert |Keep(s, p)| == |Keep(init, p)| + |extra|;
    }
  }

  ghost predicate NoDuplicates<T>(s: seq<T>) {
    forall i, j :: 0 <= i < j < |s| ==> s[i] != s[j]
  }

  /** Appending an element not yet present keeps a sequence duplicate-free. */
  lemma AppendNoDuplicates<T>(s: seq<T>, x: T)
    requires NoDuplicates(s) && x !in s
    ensures NoDuplicates(s + [x])
  {
    var r := s + [x];
    forall i, j | 0 <= i < j < |r| ensures r[i] != r[j] {
      if j == |s| {
        assert r[i] == s[i] && s[i] in s;
      }
    }
  }

  /** Filtering a duplicate-free sequence leaves it duplicate-free. */
  lemma {:induction false} KeepNoDuplicates<T(!new)>(s: seq<T>, p: T -> bool)
    requires NoDuplicates(s)
    ensures NoDuplicates(Keep(s, p))
  {
    if s != [] {
      var init, last := s[..|s| - 1], s[|s| - 1];
      assert NoDuplicates(init);
      KeepNoDuplicates(init, p);
      assert s == init + [last];
      if p(last) {
        AppendNoDuplicates(Keep(init, p), last);
      }
    }
  }
}
