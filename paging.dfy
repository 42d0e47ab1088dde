/**
 * The paging contract shared by the four paged listings: sort the matches by
 * `createdAt` descending, skip `(page - 1) * limit` of them, take at most
 * `limit`, and report `totalPages = ceil(matchCount / limit)`.
 */
module Paging {
  import opened Common
  import opened Errors

  /** `Math.ceil(n / d)` for whole numbers. */
  function CeilDiv(n: nat, d: nat): (r: nat)
    requires d > 0
    ensures r * d >= n
    ensures r * d < n + d
    ensures r == 0 <==> n == 0
  {
    var q := (n + d - 1) / d;
    assert q * d + (n + d - 1) % d == n + d - 1;
    q
  }

  /** The number of matches a page skips. */
  function Skip(page: int, limit: nat): int
  {
    (page - 1) * limit
  }

  /** `.skip((page - 1) * limit).limit(limit)` over an already sorted sequence. */
  function PageSlice<T>(s: seq<T>, page: int, limit: nat): (r: seq<T>)
    requires limit > 0 && page >= 1
    ensures |r| <= limit
    ensures Skip(page, limit) >= |s| ==> r == []
    ensures Skip(page, limit) < |s| ==> |r| == Min(limit, |s| - Skip(page, limit))
    ensures forall i :: 0 <= i < |r| ==> r[i] == s[Skip(page, limit) + i]
  {
    var skip := Skip(page, limit);
    assert skip >= 0;
    if skip >= |s| then [] else s[skip..Min(skip + limit, |s|)]
  }

  // ---------------------------------------------------------------------------
  // Sorting by creation time, newest first
  // ---------------------------------------------------------------------------

  /** Keys never increase along `s`. */
  ghost predicate SortedDesc<T>(s: seq<T>, key: T -> int)
  {
    forall i, j :: 0 <= i < j < |s| ==> key(s[i]) >= key(s[j])
  }

  /** Puts `x` in front of the first element whose key is not larger. */
  function InsertDesc<T>(x: T, s: seq<T>, key: T -> int): (r: seq<T>)
    ensures |r| == |s| + 1
  {
    if s == [] || key(x) >= key(s[0]) then [x] + s else [s[0]] + InsertDesc(x, s[1..], key)
  }

  /**
   * A stable sort by `key` descending: elements with equal keys keep their
   * relative order. The store does not promise any particular order among
   * equal keys; this is one admissible choice.
   */
  function SortDesc<T>(s: seq<T>, key: T -> int): (r: seq<T>)
    ensures |r| == |s|
  {
    if s == [] then [] else InsertDesc(s[0], SortDesc(s[1..], key), key)
  }

  /** Inserting below a bound stays below it. */
  lemma {:induction false} InsertDescBounded<T>(x: T, s: seq<T>, key: T -> int, b: int)
    requires key(x) <= b
    requires forall i :: 0 <= i < |s| ==> key(s[i]) <= b
    ensures forall i :: 0 <= i < |s| + 1 ==> key(InsertDesc(x, s, key)[i]) <= b
  {
    if s != [] && key(x) < key(s[0]) {
      InsertDescBounded(x, s[1..], key, b);
    }
  }

  lemma {:induction false} InsertDescSorted<T>(x: T, s: seq<T>, key: T -> int)
    requires SortedDesc(s, key)
    ensures SortedDesc(InsertDesc(x, s, key), key)
  {
    if s != [] && key(x) < key(s[0]) {
      InsertDescSorted(x, s[1..], key);
      InsertDescBounded(x, s[1..], key, key(s[0]));
    }
  }

  lemma {:induction false} InsertDescPermutes<T>(x: T, s: seq<T>, key: T -> int)
    ensures multiset(InsertDesc(x, s, key)) == multiset(s) + multiset{x}
  {
    if s != [] && key(x) < key(s[0]) {
      InsertDescPermutes(x, s[1..], key);
      assert s == [s[0]] + s[1..];
    }
  }

  /** The sorted sequence is ordered newest first and is a permutation of its input. */
  lemma {:induction false} SortDescSpec<T>(s: seq<T>, key: T -> int)
    ensures SortedDesc(SortDesc(s, key), key)
    ensures multiset(SortDesc(s, key)) == multiset(s)
  {
    if s != [] {
      SortDescSpec(s[1..], key);
      InsertDescSorted(s[0], SortDesc(s[1..], key), key);
      InsertDescPermutes(s[0], SortDesc(s[1..], key), key);
      assert s == [s[0]] + s[1..];
    }
  }

  // ---------------------------------------------------------------------------
  // A paged listing
  // ---------------------------------------------------------------------------

  datatype Paged<T> = Paged(data: seq<T>, totalPages: nat)

  /**
   * One page of `matches`. A page number below 1 makes the skip negative,
   * which the store refuses.
   */
  function Paginate<T>(matches: seq<T>, key: T -> int, page: int, limit: nat): (r: Outcome<Paged<T>>)
    requires limit > 0
    ensures r.Failed? <==> page < 1
    ensures r.Failed? ==> r.cause == StoreError(NegativeSkip)
    ensures r.Ok? ==> |r.value.data| <= limit && r.value.totalPages == CeilDiv(|matches|, limit)
    ensures r.Ok? ==> forall i :: 0 <= i < |r.value.data| ==>
                        0 <= Skip(page, limit) + i < |matches| &&
                        r.value.data[i] == SortDesc(matches, key)[Skip(page, limit) + i]
    ensures r.Ok? ==> r.value.data == PageSlice(SortDesc(matches, key), page, limit)
  {
    if page < 1 then Failed(StoreError(NegativeSkip))
    else Ok(Paged(PageSlice(SortDesc(matches, key), page, limit), CeilDiv(|matches|, limit)))
  }

  /** Every item on a page is one of the matches. */
  lemma PageItemsAreMatches<T>(matches: seq<T>, key: T -> int, page: int, limit: nat)
    requires limit > 0 && page >= 1
    ensures forall x :: x in Paginate(matches, key, page, limit).value.data ==> x in matches
  {
    var sorted := SortDesc(matches, key);
    SortDescSpec(matches, key);
    var data := PageSlice(sorted, page, limit);
    forall x | x in data ensures x in matches {
      var i :| 0 <= i < |data| && data[i] == x;
      assert sorted[Skip(page, limit) + i] in multiset(sorted);
    }
  }

  /** A page is ordered newest first. */
  lemma PageIsSorted<T>(matches: seq<T>, key: T -> int, page: int, limit: nat)
    requires limit > 0 && page >= 1
    ensures SortedDesc(Paginate(matches, key, page, limit).value.data, key)
  {
    var sorted := SortDesc(matches, key);
    SortDescSpec(matches, key);
    var skip := Skip(page, limit);
    if skip < |sorted| {
      SortedSlice(sorted, key, skip, Min(skip + limit, |sorted|));
    }
  }

  lemma SortedSlice<T>(s: seq<T>, key: T -> int, lo: nat, hi: nat)
    requires SortedDesc(s, key) && lo <= hi <= |s|
    ensures SortedDesc(s[lo..hi], key)
  {
    var t := s[lo..hi];
    forall i, j | 0 <= i < j < |t| ensures key(t[i]) >= key(t[j]) {
      assert t[i] == s[lo + i] && t[j] == s[lo + j];
    }
  }

  /** A page past the last one is empty and is not an error. */
  lemma PageBeyondLastIsEmpty<T>(matches: seq<T>, key: T -> int, page: int, limit: nat)
    requires limit > 0 && page >= 1
    requires page > CeilDiv(|matches|, limit)
    ensures Paginate(matches, key, page, limit) == Ok(Paged([], CeilDiv(|matches|, limit)))
  {
    var t := CeilDiv(|matches|, limit);
    assert page - 1 >= t;
    MulMonotone(t, page - 1, limit);
  }

  /** Every page up to the last one holds at least one item. */
  lemma PagesUpToLastAreNonEmpty<T>(matches: seq<T>, key: T -> int, page: int, limit: nat)
    requires limit > 0 && 1 <= page <= CeilDiv(|matches|, limit)
    ensures Paginate(matches, key, page, limit).Ok?
    ensures |Paginate(matches, key, page, limit).value.data| > 0
  {
    var t := CeilDiv(|matches|, limit);
    MulMonotone(page - 1, t - 1, limit);
  }

  /** The `k`-th match in sorted order is shown on page `k / limit + 1`, at position `k % limit`. */
  lemma EveryItemHasItsPage<T>(s: seq<T>, limit: nat, k: nat)
    requires limit > 0 && k < |s|
    ensures var page := PageSlice(s, k / limit + 1, limit);
      k % limit < |page| && page[k % limit] == s[k]
  {
    var p := k / limit + 1;
    assert Skip(p, limit) == (k / limit) * limit;
    assert (k / limit) * limit + k % limit == k;
  }

  lemma MulMonotone(a: nat, b: nat, c: nat)
    requires a <= b
    ensures a * c <= b * c
  {
  }
}
