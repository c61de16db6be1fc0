/**
 * The newest-first order of the timelines. The sort key is the creation stamp
 * `stamp(createdAt)`, a parameter standing for `new Date(createdAt).getTime()`.
 * The sort is stable, as `Array.prototype.sort` is; `NewestFirstStable` proves it.
 */
module Ordering {
  import opened Types
  import opened Seqs

  /** Non-increasing by the creation stamp. */
  predicate IsNewestFirst(s: seq<TodoItem>, stamp: string -> int) {
    forall i, j :: 0 <= i < j < |s| ==> stamp(s[i].createdAt) >= stamp(s[j].createdAt)
  }

  /** Puts `x` into a newest-first `s`, ahead of every item that is not strictly newer. */
  function Insert(x: TodoItem, s: seq<TodoItem>, stamp: string -> int): (r: seq<TodoItem>)
    requires IsNewestFirst(s, stamp)
    ensures IsNewestFirst(r, stamp)
    ensures multiset(r) == multiset(s) + multiset{x}
    ensures forall y :: y in r <==> y == x || y in s
  {
    if s == [] || stamp(x.createdAt) >= stamp(s[0].createdAt) then [x] + s
    else
      var rest := Insert(x, s[1..], stamp);
      assert s == [s[0]] + s[1..];
      assert multiset([s[0]] + rest) == multiset{s[0]} + multiset(rest);
      assert forall y :: y in rest ==> stamp(y.createdAt) <= stamp(s[0].createdAt);
      ConsNewestFirst(s[0], rest, stamp);
      [s[0]] + rest
  }

  /** An item no older than every item of a newest-first list can lead it. */
  lemma ConsNewestFirst(h: TodoItem, rest: seq<TodoItem>, stamp: string -> int)
    requires IsNewestFirst(rest, stamp)
    requires forall y :: y in rest ==> stamp(y.createdAt) <= stamp(h.createdAt)
    ensures IsNewestFirst([h] + rest, stamp)
  {
    var r := [h] + rest;
    forall i, j | 0 <= i < j < |r| ensures stamp(r[i].createdAt) >= stamp(r[j].createdAt) {
      if i == 0 {
        assert r[j] == rest[j - 1] && rest[j - 1] in rest;
      } else {
        assert r[i] == rest[i - 1] && r[j] == rest[j - 1];
      }
    }
  }

  /** The items of `s` newest first: a permutation of `s` that is ordered by stamp. */
  function NewestFirst(s: seq<TodoItem>, stamp: string -> int): (r: seq<TodoItem>)
    ensures IsNewestFirst(r, stamp)
    ensures multiset(r) == multiset(s)
    ensures |r| == |s|
  {
    if s == [] then []
    else
      assert s == [s[0]] + s[1..];
      Insert(s[0], NewestFirst(s[1..], stamp), stamp)
  }

  /** Sorting a sequence that is already newest first changes nothing. */
  lemma {:induction false} NewestFirstOfOrdered(s: seq<TodoItem>, stamp: string -> int)
    requires IsNewestFirst(s, stamp)
    ensures NewestFirst(s, stamp) == s
  {
    if s != [] {
      NewestFirstOfOrdered(s[1..], stamp);
      assert s == [s[0]] + s[1..];
    }
  }

  /** An item at least as new as all others comes first once sorted, even on ties, when it leads the input. */
  lemma LatestLeads(x: TodoItem, s: seq<TodoItem>, stamp: string -> int)
    requires forall y :: y in s ==> stamp(y.createdAt) <= stamp(x.createdAt)
    ensures NewestFirst([x] + s, stamp)[0] == x
  {
    var xs := [x] + s;
    assert xs[0] == x && xs[1..] == s;
    var sorted := NewestFirst(s, stamp);
    if sorted != [] {
      assert sorted[0] in multiset(s);
    }
  }

  /** Filtering then sorting keeps each qualifying item exactly as often as the input has it. */
  lemma NewestFirstOfKeep(s: seq<TodoItem>, p: TodoItem -> bool, stamp: string -> int)
    ensures forall t :: multiset(NewestFirst(Keep(s, p), stamp))[t] == if p(t) then multiset(s)[t] else 0
    ensures forall t :: t in NewestFirst(Keep(s, p), stamp) <==> t in s && p(t)
  {
    var r := NewestFirst(Keep(s, p), stamp);
    forall t ensures t in r <==> t in Keep(s, p) {
      assert t in r <==> t in multiset(r);
    }
  }

  /** The items carrying creation stamp `k`: one tie class of the sort. */
  function StampIs(k: int, stamp: string -> int): TodoItem -> bool {
    (t: TodoItem) => stamp(t.createdAt) == k
  }

  /** Inserting never moves `x` past an item of its own stamp, nor two tied items past each other. */
  lemma {:induction false} InsertStable(x: TodoItem, s: seq<TodoItem>, stamp: string -> int, k: int)
    requires IsNewestFirst(s, stamp)
    ensures Keep(Insert(x, s, stamp), StampIs(k, stamp)) == Keep([x] + s, StampIs(k, stamp))
  {
    var p := StampIs(k, stamp);
    if s != [] && stamp(x.createdAt) < stamp(s[0].createdAt) {
      var s0, s1 := s[0], s[1..];
      var rest := Insert(x, s1, stamp);
      assert Insert(x, s, stamp) == [s0] + rest;
      InsertStable(x, s1, stamp, k);
      KeepConcat([s0], rest, p);
      KeepConcat([s0], [x] + s1, p);
      KeepSwapHeads(s0, x, s1, p);
      assert s == [s0] + s1;
    }
  }

  /**
   * The sort is stable: the items of every one stamp come out in the order the
   * input has them, as `Array.prototype.sort` guarantees.
   */
  lemma {:induction false} NewestFirstStable(s: seq<TodoItem>, stamp: string -> int, k: int)
    ensures Keep(NewestFirst(s, stamp), StampIs(k, stamp)) == Keep(s, StampIs(k, stamp))
  {
    if s != [] {
      var p := StampIs(k, stamp);
      var sorted := NewestFirst(s[1..], stamp);
      NewestFirstStable(s[1..], stamp, k);
      InsertStable(s[0], sorted, stamp, k);
      KeepConcat([s[0]], sorted, p);
      KeepConcat([s[0]], s[1..], p);
      assert s == [s[0]] + s[1..];
    }
  }
}
