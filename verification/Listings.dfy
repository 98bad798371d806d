/** Ordered listings of a set of keys, and the pages of twenty that the list requests cut out of them. */
module Listings {

  ghost predicate TotalOrder<K(!new)>(keys: set<K>, before: (K, K) -> bool) {
    && (forall a, b :: a in keys && b in keys ==> before(a, b) || before(b, a))
    && (forall a, b :: a in keys && b in keys && before(a, b) && before(b, a) ==> a == b)
    && (forall a, b, c :: a in keys && b in keys && c in keys && before(a, b) && before(b, c) ==> before(a, c))
  }

  /** xs lists every key once, in order. */
  ghost predicate IsListing<K(!new)>(xs: seq<K>, keys: set<K>, before: (K, K) -> bool) {
    && (forall k :: k in xs <==> k in keys)
    && (forall i, j :: 0 <= i < j < |xs| ==> xs[i] != xs[j] && before(xs[i], xs[j]))
  }

  lemma LeastExists<K(!new)>(keys: set<K>, before: (K, K) -> bool) returns (least: K)
    requires keys != {} && TotalOrder(keys, before)
    ensures least in keys && forall k :: k in keys ==> before(least, k)
    decreases |keys|
  {
    var x :| x in keys;
    if keys == {x} {
      least := x;
    } else {
      var rest := keys - {x};
      assert keys == rest + {x};
      var y := LeastExists(rest, before);
      least := if before(x, y) then x else y;
    }
  }

  function Sorted<K(!new, ==)>(keys: set<K>, before: (K, K) -> bool): (xs: seq<K>)
    requires TotalOrder(keys, before)
    ensures IsListing(xs, keys, before)
    decreases |keys|
  {
    if keys == {} then []
    else
      assert exists m :: m in keys && forall k :: k in keys ==> before(m, k) by {
        var least := LeastExists(keys, before);
      }
      var m :| m in keys && forall k :: k in keys ==> before(m, k);
      [m] + Sorted(keys - {m}, before)
  }

  /** There is only one listing, so it does not matter how the database sorts. */
  lemma {:induction false} ListingUnique<K(!new)>(xs: seq<K>, ys: seq<K>, keys: set<K>, before: (K, K) -> bool)
    requires TotalOrder(keys, before) && IsListing(xs, keys, before) && IsListing(ys, keys, before)
    ensures xs == ys
    decreases |xs|
  {
    ListingLength(xs, keys, before);
    ListingLength(ys, keys, before);
    if xs != [] {
      assert xs[0] in keys && ys[0] in keys;
      var i :| 0 <= i < |ys| && ys[i] == xs[0];
      var j :| 0 <= j < |xs| && xs[j] == ys[0];
      assert xs[0] == ys[0];
      TailLists(xs, keys, before);
      TailLists(ys, keys, before);
      ListingUnique(xs[1..], ys[1..], keys - {xs[0]}, before);
      assert xs == [xs[0]] + xs[1..] && ys == [ys[0]] + ys[1..];
    }
  }

  lemma TailLists<K(!new)>(xs: seq<K>, keys: set<K>, before: (K, K) -> bool)
    requires xs != [] && IsListing(xs, keys, before)
    ensures IsListing(xs[1..], keys - {xs[0]}, before)
  {
    forall k | k in keys - {xs[0]} ensures k in xs[1..] {
      var i :| 0 <= i < |xs| && xs[i] == k;
      assert xs[1..][i - 1] == k;
    }
    forall k | k in xs[1..] ensures k in keys - {xs[0]} {
      var i :| 0 <= i < |xs[1..]| && xs[1..][i] == k;
      assert xs[i + 1] == k;
    }
  }

  lemma {:induction false} ListingLength<K(!new)>(xs: seq<K>, keys: set<K>, before: (K, K) -> bool)
    requires IsListing(xs, keys, before)
    ensures |xs| == |keys|
    decreases |xs|
  {
    if xs == [] {
    } else {
      assert xs[0] in keys;
      TailLists(xs, keys, before);
      ListingLength(xs[1..], keys - {xs[0]}, before);
    }
  }

  // ---------------------------------------------------------------- LIMIT and OFFSET

  const PAGE_SIZE: nat := 20

  function Min(a: nat, b: nat): nat {
    if a < b then a else b
  }

  function Window<T>(xs: seq<T>, limit: nat, offset: nat): seq<T> {
    xs[Min(offset, |xs|)..Min(offset + limit, |xs|)]
  }

  function Page<T>(xs: seq<T>, page: nat): seq<T>
    requires 1 <= page
  {
    Window(xs, PAGE_SIZE, (page - 1) * PAGE_SIZE)
  }

  lemma PageListed<T>(xs: seq<T>, page: nat)
    requires 1 <= page
    ensures forall i :: 0 <= i < |Page(xs, page)| ==> Page(xs, page)[i] in xs
  {
  }

  function PageCount(n: nat): nat {
    (n + PAGE_SIZE - 1) / PAGE_SIZE
  }

  function Pages<T>(xs: seq<T>, count: nat): seq<T> {
    if count == 0 then [] else Pages(xs, count - 1) + Page(xs, count)
  }

  lemma {:induction false} PagesArePrefix<T>(xs: seq<T>, count: nat)
    ensures Pages(xs, count) == xs[..Min(count * PAGE_SIZE, |xs|)]
  {
    if count > 0 {
      PagesArePrefix(xs, count - 1);
    }
  }

  /** Row number i of page p is row number 20(p - 1) + i of the listing, and a page has as many as there are. */
  lemma PageRows<T>(xs: seq<T>, p: nat)
    requires 1 <= p
    ensures |Page(xs, p)| == if |xs| <= 20 * (p - 1) then 0 else if 20 * p <= |xs| then 20 else |xs| - 20 * (p - 1)
    ensures forall i :: 0 <= i < |Page(xs, p)| ==> Page(xs, p)[i] == xs[20 * (p - 1) + i]
  {
  }

  /** The pages one after the other are the whole listing; all but the last are full; later ones are empty. */
  lemma PagesPartition<T>(xs: seq<T>)
    ensures Pages(xs, PageCount(|xs|)) == xs
    ensures forall p :: 1 <= p < PageCount(|xs|) ==> |Page(xs, p)| == 20
    ensures xs != [] ==> 1 <= |Page(xs, PageCount(|xs|))| <= 20
    ensures forall p :: PageCount(|xs|) < p ==> Page(xs, p) == []
  {
    PagesArePrefix(xs, PageCount(|xs|));
  }

  /** A row stands on exactly one page, at exactly one place of it. */
  lemma OnExactlyOnePage<K(!new)>(xs: seq<K>, keys: set<K>, before: (K, K) -> bool, k: K)
    returns (page: nat, place: nat)
    requires IsListing(xs, keys, before) && k in keys
    ensures 1 <= page && place < |Page(xs, page)| && Page(xs, page)[place] == k
    ensures forall p, q :: 1 <= p && 0 <= q < |Page(xs, p)| && Page(xs, p)[q] == k ==> p == page && q == place
  {
    var i :| 0 <= i < |xs| && xs[i] == k;
    page, place := i / PAGE_SIZE + 1, i % PAGE_SIZE;
    forall p, q | 1 <= p && 0 <= q < |Page(xs, p)| && Page(xs, p)[q] == k ensures p == page && q == place {
      assert Page(xs, p)[q] == xs[(p - 1) * PAGE_SIZE + q];
      assert (p - 1) * PAGE_SIZE + q == i;
    }
  }
}
