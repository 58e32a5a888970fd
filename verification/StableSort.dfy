/** The stable descending sort that the search code applies to rows with a sort key: ties keep their order. */
module StableSort {
  import opened Prelude

  datatype Keyed<+T> = Keyed(major: int, minor: int, item: T)

  /** `a` may stand before `b`. */
  predicate Before<T>(a: Keyed<T>, b: Keyed<T>) {
    a.major > b.major || (a.major == b.major && a.minor >= b.minor)
  }

  predicate Sorted<T>(xs: seq<Keyed<T>>) {
    forall i, j :: 0 <= i < j < |xs| ==> Before(xs[i], xs[j])
  }

  /** Puts `x` behind everything that may stand before it. */
  function Insert<T>(xs: seq<Keyed<T>>, x: Keyed<T>): seq<Keyed<T>> {
    if xs == [] || Before(xs[|xs| - 1], x) then xs + [x]
    else Insert(xs[..|xs| - 1], x) + [xs[|xs| - 1]]
  }

  function Sort<T>(xs: seq<Keyed<T>>): seq<Keyed<T>> {
    if xs == [] then [] else Insert(Sort(xs[..|xs| - 1]), xs[|xs| - 1])
  }

  /** The elements of `xs` with the key of `k`, in order. */
  function Ties<T>(xs: seq<Keyed<T>>, k: Keyed<T>): seq<Keyed<T>> {
    if xs == [] then []
    else Ties(xs[..|xs| - 1], k) + if SameKey(xs[|xs| - 1], k) then [xs[|xs| - 1]] else []
  }

  predicate SameKey<T>(a: Keyed<T>, b: Keyed<T>) {
    a.major == b.major && a.minor == b.minor
  }

  lemma {:induction false} InsertMembers<T>(xs: seq<Keyed<T>>, x: Keyed<T>)
    ensures multiset(Insert(xs, x)) == multiset(xs) + multiset{x}
    ensures forall y :: y in Insert(xs, x) ==> y in xs || y == x
  {
    if xs != [] && !Before(xs[|xs| - 1], x) {
      InsertMembers(xs[..|xs| - 1], x);
      assert xs == xs[..|xs| - 1] + [xs[|xs| - 1]];
    }
  }

  lemma {:induction false} InsertSorts<T>(xs: seq<Keyed<T>>, x: Keyed<T>)
    requires Sorted(xs)
    ensures Sorted(Insert(xs, x))
  {
    if xs != [] && !Before(xs[|xs| - 1], x) {
      var init, last := xs[..|xs| - 1], xs[|xs| - 1];
      InsertSorts(init, x);
      InsertMembers(init, x);
      forall y | y in Insert(init, x) ensures Before(y, last) {
        if y in init {
          var i :| 0 <= i < |init| && init[i] == y;
          assert Before(xs[i], last);
        }
      }
    }
  }

  lemma {:induction false} InsertKeepsTies<T>(xs: seq<Keyed<T>>, x: Keyed<T>, k: Keyed<T>)
    requires Sorted(xs)
    ensures Ties(Insert(xs, x), k) == Ties(xs, k) + if SameKey(x, k) then [x] else []
  {
    if xs == [] || Before(xs[|xs| - 1], x) {
      assert (xs + [x])[..|xs|] == xs;
    } else {
      var init, last := xs[..|xs| - 1], xs[|xs| - 1];
      InsertKeepsTies(init, x, k);
      assert (Insert(init, x) + [last])[..|Insert(init, x)|] == Insert(init, x);
    }
  }

  lemma {:induction false} SortPermutes<T>(xs: seq<Keyed<T>>)
    ensures Sorted(Sort(xs)) && multiset(Sort(xs)) == multiset(xs)
  {
    if xs != [] {
      var init, last := xs[..|xs| - 1], xs[|xs| - 1];
      SortPermutes(init);
      InsertSorts(Sort(init), last);
      InsertMembers(Sort(init), last);
      assert xs == init + [last];
    }
  }

  /** The larger major key comes first, and of equal ones the larger minor key. */
  lemma SortDescends<T>(xs: seq<Keyed<T>>, i: nat, j: nat)
    requires i < j < |Sort(xs)|
    ensures Sort(xs)[i].major >= Sort(xs)[j].major
    ensures Sort(xs)[i].major == Sort(xs)[j].major ==> Sort(xs)[i].minor >= Sort(xs)[j].minor
  {
    SortPermutes(xs);
  }

  /** Elements with equal keys keep their order. */
  lemma {:induction false} SortKeepsTies<T>(xs: seq<Keyed<T>>, k: Keyed<T>)
    ensures Ties(Sort(xs), k) == Ties(xs, k)
  {
    if xs != [] {
      SortKeepsTies(xs[..|xs| - 1], k);
      SortPermutes(xs[..|xs| - 1]);
      InsertKeepsTies(Sort(xs[..|xs| - 1]), xs[|xs| - 1], k);
    }
  }

  lemma {:induction false} TiesMembers<T>(xs: seq<Keyed<T>>, k: Keyed<T>)
    ensures |Ties(xs, k)| > 0 <==> exists i :: 0 <= i < |xs| && SameKey(xs[i], k)
    ensures xs != [] && SameKey(xs[|xs| - 1], k) ==> Ties(xs, k)[|Ties(xs, k)| - 1] == xs[|xs| - 1]
  {
    if xs != [] {
      TiesMembers(xs[..|xs| - 1], k);
      if i :| 0 <= i < |xs| - 1 && SameKey(xs[i], k) {
        assert SameKey(xs[..|xs| - 1][i], k);
      }
    }
  }

  ghost predicate SameTies<T(!new)>(xs: seq<Keyed<T>>, ys: seq<Keyed<T>>) {
    forall k :: Ties(xs, k) == Ties(ys, k)
  }

  lemma {:induction false} LastsAgree<T(!new)>(xs: seq<Keyed<T>>, ys: seq<Keyed<T>>)
    requires Sorted(xs) && Sorted(ys) && xs != [] && SameTies(xs, ys)
    ensures ys != [] && xs[|xs| - 1] == ys[|ys| - 1]
  {
    var x := xs[|xs| - 1];
    TiesMembers(xs, x);
    assert Ties(xs, x) == Ties(ys, x);
    TiesMembers(ys, x);
    var i :| 0 <= i < |ys| && SameKey(ys[i], x);
    var y := ys[|ys| - 1];
    TiesMembers(ys, y);
    assert Ties(xs, y) == Ties(ys, y);
    TiesMembers(xs, y);
    var j :| 0 <= j < |xs| && SameKey(xs[j], y);
    assert SameKey(x, y);
  }

  lemma {:induction false} DroppedLastTies<T>(xs: seq<Keyed<T>>, ys: seq<Keyed<T>>, k: Keyed<T>)
    requires xs != [] && ys != [] && xs[|xs| - 1] == ys[|ys| - 1] && Ties(xs, k) == Ties(ys, k)
    ensures Ties(xs[..|xs| - 1], k) == Ties(ys[..|ys| - 1], k)
  {
    var a, b := Ties(xs[..|xs| - 1], k), Ties(ys[..|ys| - 1], k);
    if SameKey(xs[|xs| - 1], k) {
      assert a == Ties(xs, k)[..|Ties(xs, k)| - 1] && b == Ties(ys, k)[..|Ties(ys, k)| - 1];
    } else {
      assert a == Ties(xs, k) && b == Ties(ys, k);
    }
  }

  /** Two sorted lists with the same ties are the same list: there is only one stable sort. */
  lemma {:induction false} StableSortIsUnique<T(!new)>(xs: seq<Keyed<T>>, ys: seq<Keyed<T>>)
    requires Sorted(xs) && Sorted(ys) && SameTies(xs, ys)
    ensures xs == ys
  {
    if xs == [] {
      assert ys == [] by {
        if ys != [] {
          LastsAgree(ys, xs);
        }
      }
    } else {
      LastsAgree(xs, ys);
      var a, b := xs[..|xs| - 1], ys[..|ys| - 1];
      forall k ensures Ties(a, k) == Ties(b, k) {
        assert Ties(xs, k) == Ties(ys, k);
        DroppedLastTies(xs, ys, k);
      }
      StableSortIsUnique(a, b);
      assert xs == a + [xs[|xs| - 1]] && ys == b + [ys[|ys| - 1]];
    }
  }

  /** So `Sort` is what any stable sort computes. */
  lemma {:induction false} SortIsTheStableSort<T(!new)>(xs: seq<Keyed<T>>, ys: seq<Keyed<T>>)
    ensures ys == Sort(xs) <==> Sorted(ys) && SameTies(ys, xs)
  {
    SortPermutes(xs);
    forall k ensures Ties(Sort(xs), k) == Ties(xs, k) {
      SortKeepsTies(xs, k);
    }
    if Sorted(ys) && SameTies(ys, xs) {
      StableSortIsUnique(ys, Sort(xs));
    }
  }

  // Merging.

  /** The stable merge of two sorted lists: of equals, those of `xs` come first. */
  function Merge<T>(xs: seq<Keyed<T>>, ys: seq<Keyed<T>>): seq<Keyed<T>> {
    if xs == [] then ys
    else if ys == [] then xs
    else if Before(xs[0], ys[0]) then [xs[0]] + Merge(xs[1..], ys)
    else [ys[0]] + Merge(xs, ys[1..])
  }

  lemma {:induction false} InsertBehindHead<T>(head: Keyed<T>, xs: seq<Keyed<T>>, x: Keyed<T>)
    requires Before(head, x)
    ensures Insert([head] + xs, x) == [head] + Insert(xs, x)
  {
    var all := [head] + xs;
    if xs == [] {
      assert all == [head];
    } else if Before(xs[|xs| - 1], x) {
      assert all + [x] == [head] + (xs + [x]);
    } else {
      assert all[..|all| - 1] == [head] + xs[..|xs| - 1];
      InsertBehindHead(head, xs[..|xs| - 1], x);
    }
  }

  lemma {:induction false} InsertIntoSorted<T>(xs: seq<Keyed<T>>, y: Keyed<T>)
    requires Sorted(xs)
    ensures Merge(xs, [y]) == Insert(xs, y)
  {
    if xs != [] {
      if Before(xs[0], y) {
        InsertIntoSorted(xs[1..], y);
        assert xs == [xs[0]] + xs[1..];
        InsertBehindHead(xs[0], xs[1..], y);
      } else {
        assert [y][1..] == [];
        InsertInFront(xs, y);
      }
    }
  }

  lemma {:induction false} InsertInFront<T>(xs: seq<Keyed<T>>, y: Keyed<T>)
    requires forall i :: 0 <= i < |xs| ==> !Before(xs[i], y)
    ensures Insert(xs, y) == [y] + xs
  {
    if xs != [] {
      InsertInFront(xs[..|xs| - 1], y);
      assert xs == xs[..|xs| - 1] + [xs[|xs| - 1]];
    }
  }

  lemma {:induction false} MergeInsertsLast<T>(xs: seq<Keyed<T>>, ys: seq<Keyed<T>>, y: Keyed<T>)
    requires Sorted(xs) && Sorted(ys + [y])
    ensures Merge(xs, ys + [y]) == Insert(Merge(xs, ys), y)
    decreases |xs| + |ys|
  {
    if xs == [] {
      assert Insert(ys, y) == ys + [y] by {
        if ys != [] {
          assert Before((ys + [y])[|ys| - 1], (ys + [y])[|ys|]);
        }
      }
    } else if ys == [] {
      assert ys + [y] == [y];
      InsertIntoSorted(xs, y);
    } else {
      assert (ys + [y])[0] == ys[0] && (ys + [y])[1..] == ys[1..] + [y];
      assert Before((ys + [y])[0], (ys + [y])[|ys|]);
      if Before(xs[0], ys[0]) {
        MergeInsertsLast(xs[1..], ys, y);
        InsertBehindHead(xs[0], Merge(xs[1..], ys), y);
      } else {
        MergeInsertsLast(xs, ys[1..], y);
        InsertBehindHead(ys[0], Merge(xs, ys[1..]), y);
      }
    }
  }

  lemma {:induction false} SortingSorted<T>(xs: seq<Keyed<T>>)
    requires Sorted(xs)
    ensures Sort(xs) == xs
  {
    if xs != [] {
      var init := xs[..|xs| - 1];
      SortingSorted(init);
      assert xs == init + [xs[|xs| - 1]];
      if init != [] {
        assert Before(xs[|xs| - 2], xs[|xs| - 1]);
      }
    }
  }

  /** Sorting the concatenation of two sorted lists merges them. */
  lemma {:induction false} SortMerges<T>(xs: seq<Keyed<T>>, ys: seq<Keyed<T>>)
    requires Sorted(xs) && Sorted(ys)
    ensures Sort(xs + ys) == Merge(xs, ys)
  {
    if ys == [] {
      assert xs + ys == xs;
      SortingSorted(xs);
    } else {
      var init, last := ys[..|ys| - 1], ys[|ys| - 1];
      assert ys == init + [last];
      assert (xs + ys)[..|xs + ys| - 1] == xs + init;
      SortMerges(xs, init);
      MergeInsertsLast(xs, init, last);
    }
  }

  lemma {:induction false} MergePushdown<T>(xs: seq<Keyed<T>>, ys: seq<Keyed<T>>, n: nat, k: nat, l: nat)
    requires n <= k && n <= l
    ensures Take(Merge(Take(xs, k), Take(ys, l)), n) == Take(Merge(xs, ys), n)
    decreases |xs| + |ys|
  {
    var a, b := Take(xs, k), Take(ys, l);
    if n == 0 || xs == [] || ys == [] {
    } else if Before(xs[0], ys[0]) {
      assert a[1..] == Take(xs[1..], k - 1);
      MergePushdown(xs[1..], ys, n - 1, k - 1, l);
      TakeCons(xs[0], Merge(a[1..], b), n);
      TakeCons(xs[0], Merge(xs[1..], ys), n);
    } else {
      assert b[1..] == Take(ys[1..], l - 1);
      MergePushdown(xs, ys[1..], n - 1, k, l - 1);
      TakeCons(ys[0], Merge(a, b[1..]), n);
      TakeCons(ys[0], Merge(xs, ys[1..]), n);
    }
  }

  lemma TakeCons<T>(x: T, xs: seq<T>, n: nat)
    requires n > 0
    ensures Take([x] + xs, n) == [x] + Take(xs, n - 1)
  {
  }

  lemma TakeKeepsSorted<T>(xs: seq<Keyed<T>>, n: nat)
    requires Sorted(xs)
    ensures Sorted(Take(xs, n))
  {
  }

  /** Limit pushdown: cutting each sorted source to `n` before sorting their concatenation and cutting to
      `n` changes nothing, whatever the ties. */
  lemma LimitPushdown<T>(xs: seq<Keyed<T>>, ys: seq<Keyed<T>>, n: nat)
    requires Sorted(xs) && Sorted(ys)
    ensures Take(Sort(Take(xs, n) + Take(ys, n)), n) == Take(Sort(xs + ys), n)
  {
    TakeKeepsSorted(xs, n);
    TakeKeepsSorted(ys, n);
    SortMerges(Take(xs, n), Take(ys, n));
    SortMerges(xs, ys);
    MergePushdown(xs, ys, n, n, n);
  }
}
