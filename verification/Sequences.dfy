/** Sequences without repetition and the sizes of sets: ordered keys of an OrderedDict, stacks,
    paths. */
module Sequences {
  ghost predicate Distinct<T>(xs: seq<T>) {
    forall i, j :: 0 <= i < j < |xs| ==> xs[i] != xs[j]
  }

  /** The elements of xs that are in a set, in order. */
  function Filter<T(==)>(xs: seq<T>, keep: set<T>): (ys: seq<T>)
    ensures forall x :: x in ys ==> x in xs && x in keep
    ensures forall x :: x in xs && x in keep ==> x in ys
  {
    if xs == [] then []
    else (if xs[0] in keep then [xs[0]] else []) + Filter(xs[1..], keep)
  }

  function Without<T(==)>(xs: seq<T>, x: T): seq<T> {
    Filter(xs, (set y | y in xs) - {x})
  }

  /** OrderedDict.move_to_end. */
  function MoveToEnd<T(==)>(xs: seq<T>, x: T): seq<T> {
    Without(xs, x) + [x]
  }

  lemma {:induction false} FilterDistinct<T>(xs: seq<T>, keep: set<T>)
    requires Distinct(xs)
    ensures Distinct(Filter(xs, keep))
  {
    if xs != [] {
      FilterDistinct(xs[1..], keep);
    }
  }

  lemma {:induction false} FilterAll<T>(xs: seq<T>, keep: set<T>)
    requires forall x :: x in xs ==> x in keep
    ensures Filter(xs, keep) == xs
  {
    if xs != [] {
      FilterAll(xs[1..], keep);
    }
  }

  lemma {:induction false} FilterSnoc<T>(xs: seq<T>, x: T, keep: set<T>)
    ensures Filter(xs + [x], keep) == Filter(xs, keep) + (if x in keep then [x] else [])
  {
    if xs == [] {
      assert xs + [x] == [x];
    } else {
      assert (xs + [x])[1..] == xs[1..] + [x];
      FilterSnoc(xs[1..], x, keep);
    }
  }

  lemma FilterNext<T>(xs: seq<T>, i: nat, keep: set<T>)
    requires i < |xs|
    ensures Filter(xs[..i + 1], keep) == Filter(xs[..i], keep) + (if xs[i] in keep then [xs[i]] else [])
  {
    assert xs[..i + 1] == xs[..i] + [xs[i]];
    FilterSnoc(xs[..i], xs[i], keep);
  }

  lemma {:induction false} FilterShorter<T>(xs: seq<T>, keep: set<T>)
    ensures |Filter(xs, keep)| <= |xs|
    ensures (exists x :: x in xs && x !in keep) ==> |Filter(xs, keep)| < |xs|
  {
    if xs != [] {
      FilterShorter(xs[1..], keep);
    }
  }

  /** A filter that rejects exactly up to some key in order keeps a suffix. */
  lemma {:induction false} FilterIsSuffix<T>(xs: seq<T>, keep: set<T>)
    requires forall i, j :: 0 <= i < j < |xs| && xs[i] in keep ==> xs[j] in keep
    ensures |Filter(xs, keep)| <= |xs| && Filter(xs, keep) == xs[|xs| - |Filter(xs, keep)|..]
  {
    if xs != [] {
      if xs[0] in keep {
        FilterAll(xs, keep);
      } else {
        FilterIsSuffix(xs[1..], keep);
      }
    }
  }

  lemma {:induction false} DistinctCount<T>(xs: seq<T>, s: set<T>)
    requires Distinct(xs) && forall x :: x in xs ==> x in s
    ensures |xs| <= |s|
  {
    if xs != [] {
      forall x | x in xs[1..] ensures x in s - {xs[0]} {
        var i :| 0 <= i < |xs[1..]| && xs[1..][i] == x;
        assert xs[i + 1] == x;
      }
      DistinctCount(xs[1..], s - {xs[0]});
    }
  }

  /** A listing of a set without repetition is as long as the set. */
  lemma {:induction false} ElementCount<T>(xs: seq<T>, s: set<T>)
    requires Distinct(xs) && forall x :: x in s <==> x in xs
    ensures |s| == |xs|
  {
    if xs == [] {
      assert s == {};
    } else {
      forall x ensures x in s - {xs[0]} <==> x in xs[1..] {
        if x in xs && x != xs[0] {
          var i :| 0 <= i < |xs| && xs[i] == x;
          assert xs[1..][i - 1] == x;
        }
        if x in xs[1..] {
          var i :| 0 <= i < |xs[1..]| && xs[1..][i] == x;
          assert xs[i + 1] == x;
        }
      }
      ElementCount(xs[1..], s - {xs[0]});
    }
  }

  // --- Entries of an OrderedDict --------------------------------------------------------------

  function Members<T>(xs: seq<T>): set<T> {
    set x | x in xs
  }

  function Restrict<K, V>(entries: map<K, V>, keep: set<K>): map<K, V> {
    map k | k in entries && k in keep :: entries[k]
  }

  /** The last n elements: the most recently used keys of an order under a cap of n. */
  function Newest<T>(order: seq<T>, n: nat): seq<T> {
    if |order| <= n then order else order[|order| - n..]
  }

  /** Popping the first key of a suffix of the order. */
  lemma OldestOut<K, V>(order: seq<K>, entries: map<K, V>, n: nat)
    requires Distinct(order) && n < |order|
    ensures Restrict(entries, Members(order[n..])) - {order[n]} == Restrict(entries, Members(order[n + 1..]))
  {
    var xs, ys := order[n..], order[n + 1..];
    assert xs == [order[n]] + ys && order[n] !in ys;
    assert Members(xs) == Members(ys) + {order[n]};
  }

  /** An order and entries over the same keys stay so under a cap. */
  lemma NewestKeys<K, V>(order: seq<K>, entries: map<K, V>, n: nat)
    requires Distinct(order) && forall k :: k in order <==> k in entries
    ensures Distinct(Newest(order, n)) && |Newest(order, n)| <= n
    ensures forall k :: k in Newest(order, n) <==> k in Restrict(entries, Members(Newest(order, n)))
  {
    var newest := Newest(order, n);
    assert forall k :: k in newest ==> k in order;
  }

  lemma {:induction false} SubsetSize<T>(xs: set<T>, ys: set<T>)
    requires xs <= ys
    ensures |xs| <= |ys|
    decreases |ys|
  {
    if xs != {} {
      var x :| x in xs;
      SubsetSize(xs - {x}, ys - {x});
    }
  }
}
