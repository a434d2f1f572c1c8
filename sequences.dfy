/**
 * List operations the bot uses through Python built-ins: counting, slicing
 * with Python's rules, and the stable `list.sort` / `sorted`.
 */
module Sequences {

  /** Number of occurrences of `x` in `s` (Python's `s.count(x)`). Defined from the back so that loops extend it. */
  function Count<T(==)>(s: seq<T>, x: T): nat
    decreases |s|
  {
    if s == [] then 0 else Count(s[..|s| - 1], x) + (if s[|s| - 1] == x then 1 else 0)
  }

  lemma {:induction false} CountBounds<T>(s: seq<T>, x: T)
    ensures Count(s, x) <= |s|
    ensures Count(s, x) > 0 <==> x in s
    decreases |s|
  {
    if s != [] {
      CountBounds(s[..|s| - 1], x);
      assert s == s[..|s| - 1] + [s[|s| - 1]];
    }
  }

  /** Extending a sequence by one element extends its count by at most one. */
  lemma CountSnoc<T>(s: seq<T>, y: T, x: T)
    ensures Count(s + [y], x) == Count(s, x) + (if y == x then 1 else 0)
  {
    assert (s + [y])[..|s + [y]| - 1] == s;
  }

  lemma {:induction false} CountConcat<T>(s: seq<T>, t: seq<T>, x: T)
    ensures Count(s + t, x) == Count(s, x) + Count(t, x)
    decreases |t|
  {
    if t == [] {
      assert s + t == s;
    } else {
      var t' := t[..|t| - 1];
      assert s + t == (s + t') + [t[|t| - 1]];
      assert t == t' + [t[|t| - 1]];
      CountSnoc(s + t', t[|t| - 1], x);
      CountSnoc(t', t[|t| - 1], x);
      CountConcat(s, t', x);
    }
  }

  /** In a sequence without repetitions every element occurs at most once. */
  lemma {:induction false} CountDistinct<T>(s: seq<T>, x: T)
    requires Distinct(s)
    ensures Count(s, x) == if x in s then 1 else 0
    decreases |s|
  {
    if s != [] {
      var s' := s[..|s| - 1];
      CountDistinct(s', x);
      assert s == s' + [s[|s| - 1]];
      CountBounds(s', x);
    }
  }

  /** No element appears twice. */
  predicate Distinct<T(==)>(s: seq<T>)
  {
    forall i, j :: 0 <= i < j < |s| ==> s[i] != s[j]
  }

  /** Python's `s[:n]`, including a negative `n`, which drops `-n` elements from the end. */
  function PyTake<T>(s: seq<T>, n: int): (r: seq<T>)
    ensures n >= 0 ==> |r| == if n < |s| then n else |s|
    ensures n < 0 ==> |r| == if |s| + n > 0 then |s| + n else 0
    ensures r == s[..|r|]
  {
    if n >= 0 then (if n < |s| then s[..n] else s)
    else if |s| + n > 0 then s[..|s| + n] else []
  }

  /**
   * `above(a, b)` says that `a` must be placed before `b`. Sorting needs it to be a
   * strict weak order: irreflexive, transitive, and with transitive incomparability.
   */
  ghost predicate IsStrictWeakOrder<T(!new)>(above: (T, T) -> bool)
  {
    && (forall a :: !above(a, a))
    && (forall a, b, c :: above(a, b) && above(b, c) ==> above(a, c))
    && (forall a, b, c :: !above(a, b) && !above(b, c) ==> !above(a, c))
  }

  /** No later element must be placed before an earlier one. */
  ghost predicate SortedBy<T>(s: seq<T>, above: (T, T) -> bool)
  {
    forall i, j :: 0 <= i < j < |s| ==> !above(s[j], s[i])
  }

  /**
   * Places `x` in front of the first element that does not have to precede it.
   * Elements that tie with `x` therefore stay after it.
   */
  function Insert<T(!new)>(x: T, s: seq<T>, above: (T, T) -> bool): (r: seq<T>)
    requires IsStrictWeakOrder(above) && SortedBy(s, above)
    ensures SortedBy(r, above)
    ensures multiset(r) == multiset(s) + multiset{x}
    decreases |s|
  {
    if s == [] || !above(s[0], x) then
      FrontSorted(x, s, above);
      [x] + s
    else
      var s0, t := s[0], s[1..];
      assert s == [s0] + t;
      assert SortedBy(t, above);
      var rest := Insert(x, t, above);
      assert forall k :: 0 <= k < |rest| ==> !above(rest[k], s0) by {
        forall k | 0 <= k < |rest| ensures !above(rest[k], s0) {
          assert rest[k] in multiset(rest);
          if rest[k] != x {
            assert rest[k] in multiset(t);
            var j :| 0 <= j < |t| && t[j] == rest[k];
            assert s[j + 1] == rest[k];
          } else {
            assert above(s0, x);
          }
        }
      }
      ConsSorted(s0, rest, above);
      [s0] + rest
  }

  /** An element that nothing in a sorted sequence has to precede may go in front of it. */
  lemma FrontSorted<T(!new)>(x: T, s: seq<T>, above: (T, T) -> bool)
    requires IsStrictWeakOrder(above) && SortedBy(s, above)
    requires s == [] || !above(s[0], x)
    ensures SortedBy([x] + s, above)
  {
    var r := [x] + s;
    forall i, j | 0 <= i < j < |r| ensures !above(r[j], r[i]) {
      if i == 0 {
        var y := r[j];
        assert y == s[j - 1];
        if j > 1 {
          assert !above(y, s[0]);
          assert !above(y, s[0]) && !above(s[0], x) ==> !above(y, x);
        }
      } else {
        assert r[i] == s[i - 1] && r[j] == s[j - 1];
      }
    }
  }

  /** A first element that no later element has to precede keeps a sorted sequence sorted. */
  lemma ConsSorted<T>(a: T, t: seq<T>, above: (T, T) -> bool)
    requires SortedBy(t, above)
    requires forall k :: 0 <= k < |t| ==> !above(t[k], a)
    ensures SortedBy([a] + t, above)
  {
    var r := [a] + t;
    forall i, j | 0 <= i < j < |r| ensures !above(r[j], r[i]) {
      assert r[j] == t[j - 1];
      if i > 0 {
        assert r[i] == t[i - 1];
      }
    }
  }

  /**
   * Python's stable `sorted(s, key=..., reverse=...)`, expressed through the strict order
   * `above`: an insertion sort that inserts each element in front of the elements it ties
   * with that came after it, so ties keep their input order.
   */
  function SortBy<T(!new)>(s: seq<T>, above: (T, T) -> bool): (r: seq<T>)
    requires IsStrictWeakOrder(above)
    ensures SortedBy(r, above)
    ensures multiset(r) == multiset(s) && |r| == |s|
    decreases |s|
  {
    if s == [] then []
    else
      var rest := SortBy(s[1..], above);
      assert s == [s[0]] + s[1..];
      Insert(s[0], rest, above)
  }

  /** Sorting keeps exactly the elements of the input. */
  lemma SortByMembers<T(!new)>(s: seq<T>, above: (T, T) -> bool, x: T)
    requires IsStrictWeakOrder(above)
    ensures x in SortBy(s, above) <==> x in s
  {
    var r := SortBy(s, above);
    assert x in r <==> x in multiset(r);
  }

  /** Neither of `a` and `b` has to precede the other. */
  ghost predicate Tied<T>(a: T, b: T, above: (T, T) -> bool)
  {
    !above(a, b) && !above(b, a)
  }

  /** The elements of `s` that tie with `x`, in their order in `s`. */
  ghost function TiedWith<T>(s: seq<T>, x: T, above: (T, T) -> bool): (r: seq<T>)
    ensures forall y :: y in r ==> y in s && Tied(y, x, above)
    ensures |r| <= |s|
    decreases |s|
  {
    if s == [] then []
    else (if Tied(s[0], x, above) then [s[0]] else []) + TiedWith(s[1..], x, above)
  }

  /** Inserting `y` puts it in front of the elements tied with it. */
  lemma {:induction false} InsertTies<T(!new)>(y: T, s: seq<T>, x: T, above: (T, T) -> bool)
    requires IsStrictWeakOrder(above) && SortedBy(s, above)
    ensures Tied(y, x, above) ==> TiedWith(Insert(y, s, above), x, above) == [y] + TiedWith(s, x, above)
    ensures !Tied(y, x, above) ==> TiedWith(Insert(y, s, above), x, above) == TiedWith(s, x, above)
    decreases |s|
  {
    if s == [] || !above(s[0], y) {
      TiedWithCons(y, s, x, above);
    } else {
      var s0, t := s[0], s[1..];
      assert s == [s0] + t;
      assert SortedBy(t, above);
      InsertTies(y, t, x, above);
      var rest := Insert(y, t, above);
      assert Insert(y, s, above) == [s0] + rest;
      TiedWithCons(s0, rest, x, above);
      TiedWithCons(s0, t, x, above);
      if Tied(y, x, above) {
        assert !above(s0, x) && !above(x, y) ==> !above(s0, y);
      }
    }
  }

  /** The ties of a sequence with a first element. */
  lemma TiedWithCons<T>(a: T, t: seq<T>, x: T, above: (T, T) -> bool)
    ensures Tied(a, x, above) ==> TiedWith([a] + t, x, above) == [a] + TiedWith(t, x, above)
    ensures !Tied(a, x, above) ==> TiedWith([a] + t, x, above) == TiedWith(t, x, above)
  {
    assert ([a] + t)[1..] == t;
  }

  /** Sorting is stable: the elements tied with any `x` keep their input order. */
  lemma {:induction false} SortByStable<T(!new)>(s: seq<T>, x: T, above: (T, T) -> bool)
    requires IsStrictWeakOrder(above)
    ensures TiedWith(SortBy(s, above), x, above) == TiedWith(s, x, above)
    decreases |s|
  {
    if s != [] {
      SortByStable(s[1..], x, above);
      InsertTies(s[0], SortBy(s[1..], above), x, above);
      assert s == [s[0]] + s[1..];
      TiedWithCons(s[0], s[1..], x, above);
    }
  }

  /** The first element tied with `x` is the first element of `s` tied with it. */
  lemma {:induction false} FirstTied<T>(s: seq<T>, x: T, above: (T, T) -> bool)
    requires TiedWith(s, x, above) != []
    ensures exists k :: (0 <= k < |s| && s[k] == TiedWith(s, x, above)[0]
                         && forall j :: 0 <= j < k ==> !Tied(s[j], x, above))
    decreases |s|
  {
    if !Tied(s[0], x, above) {
      FirstTied(s[1..], x, above);
      var k :| (0 <= k < |s[1..]| && s[1..][k] == TiedWith(s[1..], x, above)[0]
                && forall j :: 0 <= j < k ==> !Tied(s[1..][j], x, above));
      assert s[k + 1] == TiedWith(s, x, above)[0];
      forall j | 0 <= j < k + 1
        ensures !Tied(s[j], x, above)
      {
        if j > 0 {
          assert s[j] == s[1..][j - 1];
        }
      }
    } else {
      assert s[0] == TiedWith(s, x, above)[0];
    }
  }

  /** The first element after sorting is the first element of `s` that nothing has to precede. */
  lemma SortByFirst<T(!new)>(s: seq<T>, above: (T, T) -> bool)
    requires IsStrictWeakOrder(above) && s != []
    ensures SortBy(s, above) != []
    ensures exists k :: (0 <= k < |s| && SortBy(s, above)[0] == s[k]
                         && forall j :: 0 <= j < k ==> above(SortBy(s, above)[0], s[j]))
  {
    var r := SortBy(s, above);
    var m := r[0];
    SortByStable(s, m, above);
    assert TiedWith(r, m, above)[0] == m;
    FirstTied(s, m, above);
    var k :| (0 <= k < |s| && s[k] == TiedWith(s, m, above)[0]
              && forall j :: 0 <= j < k ==> !Tied(s[j], m, above));
    forall j | 0 <= j < k
      ensures above(m, s[j])
    {
      assert s[j] in multiset(r);
      var l :| 0 <= l < |r| && r[l] == s[j];
      assert !Tied(s[j], m, above);
    }
  }

  /** Any two distinct elements are ordered one way or the other. */
  ghost predicate IsTotal<T(!new)>(above: (T, T) -> bool)
  {
    forall a, b :: a == b || above(a, b) || above(b, a)
  }

  /** Under a total order there is only one sorted arrangement of a multiset: Python's `sorted` is determined by the elements. */
  lemma {:induction false} SortedUnique<T(!new)>(a: seq<T>, b: seq<T>, above: (T, T) -> bool)
    requires IsTotal(above)
    requires SortedBy(a, above) && SortedBy(b, above)
    requires multiset(a) == multiset(b)
    ensures a == b
    decreases |a|
  {
    assert |b| == |multiset(b)| == |a|;
    if a != [] {
      SortedHeads(a, b, above);
      MultisetTail(a);
      MultisetTail(b);
      SortedUnique(a[1..], b[1..], above);
      assert a == [a[0]] + a[1..] && b == [b[0]] + b[1..];
    }
  }

  /** Two sorted arrangements of one multiset start with the same element. */
  lemma SortedHeads<T(!new)>(a: seq<T>, b: seq<T>, above: (T, T) -> bool)
    requires IsTotal(above)
    requires SortedBy(a, above) && SortedBy(b, above)
    requires multiset(a) == multiset(b) && a != []
    ensures b != [] && a[0] == b[0]
  {
    assert a[0] in multiset(b) && b[0] in multiset(a);
    var k :| 0 <= k < |b| && b[k] == a[0];
    var j :| 0 <= j < |a| && a[j] == b[0];
  }

  lemma MultisetTail<T>(a: seq<T>)
    requires a != []
    ensures multiset(a[1..]) == multiset(a) - multiset{a[0]}
  {
    assert a == [a[0]] + a[1..];
  }

  /** `s` with every occurrence of `x` removed, other elements in their order (Python's `del d[x]` on a dict's key order). */
  function Without<T(==,!new)>(s: seq<T>, x: T): (r: seq<T>)
    ensures forall y :: y in r <==> y in s && y != x
    ensures Distinct(s) ==> Distinct(r)
    ensures x !in s ==> r == s
    decreases |s|
  {
    if s == [] then []
    else
      var rest := Without(s[1..], x);
      assert Distinct(s) ==> Distinct(s[1..]) && s[0] !in s[1..];
      assert s == [s[0]] + s[1..];
      if s[0] == x then rest else [s[0]] + rest
  }

  /** The head and tail of a concatenation whose left part is not empty. */
  lemma TailOfConcat<T>(a: seq<T>, b: seq<T>)
    requires a != []
    ensures (a + b)[0] == a[0] && (a + b)[1..] == a[1..] + b
  {
  }

  /** A non-empty sequence is its head before its tail, also in front of another sequence. */
  lemma ConsOfConcat<T>(a: seq<T>, c: seq<T>)
    requires a != []
    ensures [a[0]] + (a[1..] + c) == a + c
  {
    assert a == [a[0]] + a[1..];
  }

  /** A non-empty sequence is its front followed by its last element. */
  lemma SnocSplit<T>(s: seq<T>)
    requires s != []
    ensures s == s[..|s| - 1] + [s[|s| - 1]]
  {
  }

  /** A prefix one longer is the prefix followed by the next element. */
  lemma PrefixSnoc<T>(s: seq<T>, i: nat)
    requires i < |s|
    ensures s[..i + 1] == s[..i] + [s[i]]
  {
  }
}
