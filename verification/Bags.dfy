/** Listing the values of a finite map, and order statistics that do not depend on the listing. */
module Bags {
  import opened Prelude

  ghost function Pick<K(!new)>(keys: set<K>): (k: K)
    requires keys != {}
    ensures k in keys
  {
    var k :| k in keys;
    k
  }

  /** The values at the given keys, in an order left open. */
  ghost function Listing<K(!new)>(m: map<K, real>, keys: set<K>): (s: seq<real>)
    requires keys <= m.Keys
    ensures |s| == |keys|
  {
    if keys == {} then [] else Listing(m, keys - {Pick(keys)}) + [m[Pick(keys)]]
  }

  /** How often a number occurs in a sequence. */
  ghost function Times(s: seq<real>, x: real): nat {
    multiset(s)[x]
  }

  lemma TimesPush(s: seq<real>, y: real, x: real)
    ensures Times(s + [y], x) == Times(s, x) + (if x == y then 1 else 0)
  {
  }

  lemma TimesCons(s: seq<real>, y: real, x: real)
    ensures Times([y] + s, x) == Times(s, x) + (if x == y then 1 else 0)
  {
  }

  /** Two sequences with the same elements, equally often. */
  ghost predicate SameBag(s: seq<real>, t: seq<real>) {
    forall x :: Times(s, x) == Times(t, x)
  }

  /** The second sequence holds the negated elements of the first, equally often. */
  ghost predicate Opposite(s: seq<real>, t: seq<real>) {
    forall x :: Times(t, x) == Times(s, 0.0 - x)
  }

  /** Whichever key is listed last, the listing has the same elements. */
  lemma {:induction false} ListingLast<K(!new)>(m: map<K, real>, keys: set<K>, k: K, x: real)
    requires keys <= m.Keys && k in keys
    ensures Times(Listing(m, keys), x) == Times(Listing(m, keys - {k}), x) + (if x == m[k] then 1 else 0)
  {
    var j := Pick(keys);
    hide Times;
    TimesPush(Listing(m, keys - {j}), m[j], x);
    if j != k {
      ListingLast(m, keys - {j}, k, x);
      ListingLast(m, keys - {k}, j, x);
      assert (keys - {j}) - {k} == (keys - {k}) - {j};
    }
  }

  lemma {:induction false} ListNothing<K(!new)>(m: map<K, real>)
    ensures Listing(m, {}) == [] && SameBag([], Listing(m, {}))
  {
  }

  /** Appending the value of a further key to a list of the values of some keys. */
  lemma {:induction false} ListOneMore<K(!new)>(list: seq<real>, m: map<K, real>, keys: set<K>, k: K)
    requires keys <= m.Keys && k in m && k !in keys && SameBag(list, Listing(m, keys))
    ensures SameBag(list + [m[k]], Listing(m, keys + {k}))
  {
    hide Listing, Times;
    assert (keys + {k}) - {k} == keys;
    forall x
      ensures Times(list + [m[k]], x) == Times(Listing(m, keys + {k}), x)
    {
      TimesPush(list, m[k], x);
      ListingLast(m, keys + {k}, k, x);
      assert Times(list, x) == Times(Listing(m, keys), x);
    }
  }

  /** Listings of maps that agree on the keys have the same elements. */
  lemma {:induction false} ListingAgrees<K(!new)>(m: map<K, real>, n: map<K, real>, keys: set<K>)
    requires keys <= m.Keys && keys <= n.Keys && forall k :: k in keys ==> n[k] == m[k]
    ensures Listing(m, keys) == Listing(n, keys)
  {
    if keys != {} {
      ListingAgrees(m, n, keys - {Pick(keys)});
    }
  }

  lemma {:induction false} ListingNegated<K(!new)>(m: map<K, real>, n: map<K, real>, keys: set<K>)
    requires keys <= m.Keys && keys <= n.Keys && forall k :: k in keys ==> n[k] == 0.0 - m[k]
    ensures Opposite(Listing(m, keys), Listing(n, keys))
  {
    if keys != {} {
      var k := Pick(keys);
      var s, t := Listing(m, keys - {k}), Listing(n, keys - {k});
      ListingNegated(m, n, keys - {k});
      hide Times;
      forall x
        ensures Times(t + [n[k]], x) == Times(s + [m[k]], 0.0 - x)
      {
        TimesPush(t, n[k], x);
        TimesPush(s, m[k], 0.0 - x);
      }
    }
  }

  // ----- sorting -----

  predicate IsSorted(s: seq<real>) {
    forall i, j :: 0 <= i < j < |s| ==> s[i] <= s[j]
  }

  function Insert(s: seq<real>, x: real): (r: seq<real>)
    ensures |r| == |s| + 1
  {
    if s == [] || x <= s[0] then [x] + s else [s[0]] + Insert(s[1..], x)
  }

  function Sort(s: seq<real>): (r: seq<real>)
    ensures |r| == |s|
  {
    if s == [] then [] else Insert(Sort(s[1..]), s[0])
  }

  lemma {:induction false} InsertTimes(s: seq<real>, y: real, x: real)
    ensures Times(Insert(s, y), x) == Times(s, x) + (if x == y then 1 else 0)
  {
    hide Times;
    if s != [] && y > s[0] {
      InsertTimes(s[1..], y, x);
      assert s == [s[0]] + s[1..];
      TimesCons(s[1..], s[0], x);
      TimesCons(Insert(s[1..], y), s[0], x);
    } else {
      TimesCons(s, y, x);
    }
  }

  lemma {:induction false} InsertSorts(s: seq<real>, y: real)
    requires IsSorted(s)
    ensures IsSorted(Insert(s, y))
    ensures forall i :: 0 <= i <= |s| ==> Insert(s, y)[i] == y || Insert(s, y)[i] in s
  {
    if s != [] && y > s[0] {
      InsertSorts(s[1..], y);
      var rest := Insert(s[1..], y);
      forall i | 0 <= i < |rest|
        ensures s[0] <= rest[i] && (rest[i] == y || rest[i] in s)
      {
      }
    }
  }

  lemma {:induction false} SortSorts(s: seq<real>)
    ensures IsSorted(Sort(s)) && SameBag(s, Sort(s))
  {
    if s != [] {
      SortSorts(s[1..]);
      InsertSorts(Sort(s[1..]), s[0]);
      assert s == [s[0]] + s[1..];
      hide Times, Insert, Sort;
      forall x
        ensures Times([s[0]] + s[1..], x) == Times(Insert(Sort(s[1..]), s[0]), x)
      {
        TimesCons(s[1..], s[0], x);
        InsertTimes(Sort(s[1..]), s[0], x);
      }
    }
  }

  lemma LeastFirst(s: seq<real>, t: seq<real>)
    requires IsSorted(s) && t != [] && SameBag(s, t)
    ensures s != [] && s[0] <= t[0]
  {
    assert t[0] in t && Times(t, t[0]) > 0;
    assert Times(s, t[0]) > 0;
    assert t[0] in s;
  }

  lemma {:induction false} SortedIsUnique(s: seq<real>, t: seq<real>)
    requires IsSorted(s) && IsSorted(t) && SameBag(s, t)
    ensures s == t
  {
    if s != [] || t != [] {
      if t != [] { LeastFirst(s, t); }
      LeastFirst(t, s);
      LeastFirst(s, t);
      hide Times;
      assert s == [s[0]] + s[1..] && t == [t[0]] + t[1..];
      forall x
        ensures Times(s[1..], x) == Times(t[1..], x)
      {
        TimesCons(s[1..], s[0], x);
        TimesCons(t[1..], t[0], x);
        assert Times(s, x) == Times(t, x);
      }
      SortedIsUnique(s[1..], t[1..]);
    }
  }

  /** Sorting is determined by the elements alone. */
  lemma {:induction false} SortOfSameBag(s: seq<real>, t: seq<real>)
    requires SameBag(s, t)
    ensures Sort(s) == Sort(t)
  {
    hide Sort, IsSorted, Times;
    SortSorts(s);
    SortSorts(t);
    SortedIsUnique(Sort(s), Sort(t));
  }

  /** The reverse of a sequence with every sign flipped. */
  function Mirror(s: seq<real>): (r: seq<real>)
    ensures |r| == |s|
    ensures forall i :: 0 <= i < |s| ==> r[i] == 0.0 - s[|s| - 1 - i]
  {
    seq(|s|, i requires 0 <= i < |s| => 0.0 - s[|s| - 1 - i])
  }

  lemma {:induction false} MirrorIsOpposite(s: seq<real>)
    ensures Opposite(s, Mirror(s))
  {
    if s != [] {
      MirrorIsOpposite(s[1..]);
      assert s == [s[0]] + s[1..];
      assert Mirror(s) == Mirror(s[1..]) + [0.0 - s[0]];
      hide Times, Mirror;
      var mirrored := Mirror(s[1..]) + [0.0 - s[0]];
      forall x
        ensures Times(mirrored, x) == Times([s[0]] + s[1..], 0.0 - x)
      {
        TimesPush(Mirror(s[1..]), 0.0 - s[0], x);
        TimesCons(s[1..], s[0], 0.0 - x);
      }
    }
  }

  /** Sorting the opposites reverses the order and flips every sign. */
  lemma {:induction false} SortMirrors(s: seq<real>, t: seq<real>)
    requires Opposite(s, t)
    ensures Sort(t) == Mirror(Sort(s))
  {
    hide Sort, Times;
    SortSorts(s);
    SortSorts(t);
    MirrorIsOpposite(Sort(s));
    SortedIsUnique(Sort(t), Mirror(Sort(s)));
  }

  /** The middle value, or the mean of the two middle values, of a sorted sequence. */
  function Median(sorted: seq<real>): real
    requires sorted != []
  {
    var middle := |sorted| / 2;
    if |sorted| % 2 == 0 then (sorted[middle - 1] + sorted[middle]) / 2.0 else sorted[middle]
  }

  lemma MedianMirrors(s: seq<real>)
    requires s != []
    ensures Median(Mirror(s)) == 0.0 - Median(s)
  {
  }

  /** The lower half of a sorted sequence lies at or below its median, the upper half at or above. */
  lemma MedianIsMiddle(sorted: seq<real>, i: nat)
    requires IsSorted(sorted) && i < |sorted|
    ensures i <= (|sorted| - 1) / 2 ==> sorted[i] <= Median(sorted)
    ensures i >= |sorted| / 2 ==> sorted[i] >= Median(sorted)
  {
  }

  lemma TimesIsMembership(s: seq<real>, x: real)
    ensures Times(s, x) > 0 <==> x in s
  {
  }

  /** A listing holds exactly the values at its keys. */
  lemma {:induction false} ListingHolds<K(!new)>(m: map<K, real>, keys: set<K>, x: real)
    requires keys <= m.Keys
    ensures x in Listing(m, keys) <==> exists k :: k in keys && m[k] == x
  {
    if keys != {} {
      var k := Pick(keys);
      ListingHolds(m, keys - {k}, x);
    }
  }

  /** The ends of a sorted listing bound the values at its keys and are among them. */
  lemma {:induction false} ExtremesBound<K(!new)>(m: map<K, real>, keys: set<K>)
    requires keys <= m.Keys && keys != {}
    ensures var sorted := Sort(Listing(m, keys));
            && sorted != []
            && (forall k :: k in keys ==> sorted[0] <= m[k] <= sorted[|sorted| - 1])
            && (exists k :: k in keys && m[k] == sorted[0])
            && (exists k :: k in keys && m[k] == sorted[|sorted| - 1])
  {
    var list := Listing(m, keys);
    var sorted := Sort(list);
    SortSorts(list);
    assert |sorted| == |keys| != 0;
    hide Sort, Listing, Times;
    forall x
      ensures x in sorted <==> exists k :: k in keys && m[k] == x
    {
      TimesIsMembership(list, x);
      TimesIsMembership(sorted, x);
      assert Times(list, x) == Times(sorted, x);
      ListingHolds(m, keys, x);
    }
    forall k | k in keys
      ensures sorted[0] <= m[k] <= sorted[|sorted| - 1]
    {
      assert m[k] in sorted;
    }
    assert sorted[0] in sorted && sorted[|sorted| - 1] in sorted;
  }
}
