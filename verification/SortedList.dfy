// What a sorted container of possibly equal objects ought to hold: the objects in order, equal
// ones in the order in which they arrived.  This is the abstract value of the tree in HTBTree.dfy.
module SortedList {
  // The comparison callbacks return a negative number, zero or a positive number.
  type Comparer<!T> = (T, T) -> int

  predicate Less<T>(cmp: Comparer<T>, a: T, b: T) {
    cmp(a, b) < 0
  }

  // "a comes before b" is a strict weak order, which is what makes a comparer usable for sorting.
  ghost predicate TotalPreorder<T(!new)>(cmp: Comparer<T>) {
    && (forall a, b :: Less(cmp, a, b) ==> !Less(cmp, b, a))
    && (forall a, b, c :: Less(cmp, a, c) ==> Less(cmp, a, b) || Less(cmp, b, c))
  }

  ghost predicate Sorted<T(!new)>(cmp: Comparer<T>, s: seq<T>) {
    forall i, j :: 0 <= i < j < |s| ==> !Less(cmp, s[j], s[i])
  }

  // x goes behind every object it does not precede.
  function Insert<T>(cmp: Comparer<T>, s: seq<T>, x: T): seq<T> {
    if s == [] then [x]
    else if Less(cmp, x, s[0]) then [x] + s
    else [s[0]] + Insert(cmp, s[1..], x)
  }

  function InsertAll<T>(cmp: Comparer<T>, xs: seq<T>): seq<T> {
    if xs == [] then []
    else Insert(cmp, InsertAll(cmp, xs[..|xs| - 1]), xs[|xs| - 1])
  }

  // The objects of s that compare equal to k, in the order of s.
  function Ties<T>(cmp: Comparer<T>, s: seq<T>, k: T): seq<T> {
    if s == [] then []
    else (if !Less(cmp, s[0], k) && !Less(cmp, k, s[0]) then [s[0]] else []) + Ties(cmp, s[1..], k)
  }

  // A position that no earlier object passes and every later one does is the insertion point.
  lemma {:induction false} InsertAt<T(!new)>(cmp: Comparer<T>, before: seq<T>, after: seq<T>, x: T)
    requires forall i :: 0 <= i < |before| ==> !Less(cmp, x, before[i])
    requires after != [] ==> Less(cmp, x, after[0])
    ensures Insert(cmp, before + after, x) == before + [x] + after
  {
    var s := before + after;
    if before == [] {
      assert s == after;
      assert before + [x] + after == [x] + after;
    } else {
      assert s[0] == before[0];
      assert s[1..] == before[1..] + after;
      InsertAt(cmp, before[1..], after, x);
      assert before + [x] + after == [before[0]] + (before[1..] + [x] + after);
    }
  }

  lemma {:induction false} InsertIsPermutation<T>(cmp: Comparer<T>, s: seq<T>, x: T)
    ensures multiset(Insert(cmp, s, x)) == multiset(s) + multiset{x}
  {
    if s == [] {
    } else if Less(cmp, x, s[0]) {
    } else {
      InsertIsPermutation(cmp, s[1..], x);
      assert s == [s[0]] + s[1..];
    }
  }

  lemma {:induction false} InsertKeepsSorted<T(!new)>(cmp: Comparer<T>, s: seq<T>, x: T)
    requires TotalPreorder(cmp) && Sorted(cmp, s)
    ensures Sorted(cmp, Insert(cmp, s, x))
  {
    if s == [] {
    } else if Less(cmp, x, s[0]) {
      forall j | 0 <= j < |s|
        ensures !Less(cmp, s[j], x)
      {
        var first, other := s[0], s[j];
        assert Less(cmp, x, other) || Less(cmp, other, first);
      }
    } else {
      InsertKeepsSorted(cmp, s[1..], x);
      InsertIsPermutation(cmp, s[1..], x);
      var r := Insert(cmp, s[1..], x);
      forall j | 0 <= j < |r|
        ensures !Less(cmp, r[j], s[0])
      {
        assert r[j] in multiset(r);
        assert r[j] == x || r[j] in s[1..];
      }
    }
  }

  lemma {:induction false} TiesOfConcat<T>(cmp: Comparer<T>, a: seq<T>, b: seq<T>, k: T)
    ensures Ties(cmp, a + b, k) == Ties(cmp, a, k) + Ties(cmp, b, k)
  {
    if a == [] {
      assert a + b == b;
    } else {
      assert (a + b)[1..] == a[1..] + b;
      TiesOfConcat(cmp, a[1..], b, k);
    }
  }

  // An insertion leaves ties alone, except that x is the last of its own.
  lemma {:induction false} InsertTies<T(!new)>(cmp: Comparer<T>, s: seq<T>, x: T, k: T)
    requires TotalPreorder(cmp) && Sorted(cmp, s)
    ensures Ties(cmp, Insert(cmp, s, x), k) == Ties(cmp, s + [x], k)
  {
    TiesOfConcat(cmp, s, [x], k);
    if s == [] {
      assert s + [x] == [x];
    } else if Less(cmp, x, s[0]) {
      TiesOfConcat(cmp, [x], s, k);
      if !Less(cmp, x, k) && !Less(cmp, k, x) {
        NoTies(cmp, s, k);
      }
    } else {
      InsertTies(cmp, s[1..], x, k);
      TiesOfConcat(cmp, s[1..], [x], k);
      assert s + [x] == [s[0]] + (s[1..] + [x]);
    }
  }

  lemma {:induction false} NoTies<T(!new)>(cmp: Comparer<T>, s: seq<T>, k: T)
    requires TotalPreorder(cmp) && Sorted(cmp, s)
    requires s != [] ==> Less(cmp, k, s[0])
    ensures Ties(cmp, s, k) == []
  {
    if |s| > 1 {
      assert !Less(cmp, s[1], s[0]);
      NoTies(cmp, s[1..], k);
    }
  }

  // The three properties fix the result: a sorted list of the same objects, ties in arrival order.
  lemma {:induction false} InsertAllSorts<T(!new)>(cmp: Comparer<T>, xs: seq<T>)
    requires TotalPreorder(cmp)
    ensures Sorted(cmp, InsertAll(cmp, xs))
    ensures multiset(InsertAll(cmp, xs)) == multiset(xs)
    ensures forall k :: Ties(cmp, InsertAll(cmp, xs), k) == Ties(cmp, xs, k)
  {
    if xs != [] {
      var front, x := xs[..|xs| - 1], xs[|xs| - 1];
      assert xs == front + [x];
      InsertAllSorts(cmp, front);
      var s := InsertAll(cmp, front);
      InsertKeepsSorted(cmp, s, x);
      InsertIsPermutation(cmp, s, x);
      forall k
        ensures Ties(cmp, InsertAll(cmp, xs), k) == Ties(cmp, xs, k)
      {
        InsertTies(cmp, s, x, k);
        TiesOfConcat(cmp, s, [x], k);
        TiesOfConcat(cmp, front, [x], k);
      }
    }
  }
}
