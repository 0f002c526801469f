/** The comparison does not depend on the order in which the observations are listed. */
module ComparisonOrder {
  import opened Prelude
  import opened Records
  import opened Attribution
  import opened ComparisonBlocks
  import opened Bags
  import opened Comparison

  /** An id names one observation. */
  ghost predicate IdsIdentify(s: seq<Observation>) {
    forall a, b :: a in s && b in s && a.observationId == b.observationId ==> a == b
  }

  ghost predicate ClassifiedIdsIdentify(cs: seq<Classified>) {
    forall a, b :: a in cs && b in cs && a.observation.observationId == b.observation.observationId ==>
      a.observation == b.observation
  }

  // ----- resolution -----

  /** Nothing in the group has a smaller id than the observation that represents it. */
  lemma {:induction false} LeastIsLeast(s: seq<Observation>, o: Observation)
    requires o in s
    ensures !IdLess(o.observationId, Least(s).observationId)
  {
    if |s| > 1 {
      hide IdLess;
      var rest := Least(s[1..]);
      IdsAreOrdered(rest.observationId, s[0].observationId);
      if o in s[1..] {
        LeastIsLeast(s[1..], o);
        IdOrderIsTransitive(s[0].observationId, rest.observationId, o.observationId);
      }
    }
    IdsAreOrdered(o.observationId, o.observationId);
  }

  lemma {:induction false} LeastIsOrderFree(s: seq<Observation>, t: seq<Observation>)
    requires s != [] && t != [] && multiset(s) == multiset(t) && IdsIdentify(s)
    ensures Least(s) == Least(t)
  {
    hide IdLess;
    assert Least(t) in multiset(t) && Least(s) in multiset(s);
    LeastIsLeast(s, Least(t));
    LeastIsLeast(t, Least(s));
    IdsAreOrdered(Least(s).observationId, Least(t).observationId);
  }

  /** A group is in conflict exactly when two of its observations are not exact duplicates. */
  lemma ConflictIffNotAllAlike(s: seq<Observation>)
    ensures Resolve(s).conflict <==> exists a, b :: a in s && b in s && !ExactDuplicates(a, b)
  {
    if s != [] && !Resolve(s).conflict {
      hide Least;
      var first := Least(s);
      forall a, b | a in s && b in s
        ensures ExactDuplicates(a, b)
      {
        assert ExactDuplicates(first, a) && ExactDuplicates(first, b);
      }
    }
  }

  lemma ResolveIsOrderFree(s: seq<Observation>, t: seq<Observation>)
    requires multiset(s) == multiset(t) && IdsIdentify(s)
    ensures Resolve(s) == Resolve(t)
  {
    assert |s| == |multiset(s)| == |multiset(t)| == |t|;
    if s != [] {
      hide Least, ExactDuplicates, HasFiniteSnr;
      LeastIsOrderFree(s, t);
      forall o
        ensures o in s <==> o in t
      {
        assert o in s <==> o in multiset(s);
        assert o in t <==> o in multiset(t);
      }
    }
  }

  // ----- grouping -----

  lemma {:induction false} PlacedFrom(ctx: Context, cs: seq<Classified>, k: GroupKey, side: Side, o: Observation)
    requires o in Placed(ctx, cs, k, side)
    ensures exists c :: c in cs && c.observation == o && Placement(ctx, c) == Some((k, side))
  {
    hide Placement;
    var n := |cs| - 1;
    if o in Placed(ctx, cs[..n], k, side) {
      PlacedFrom(ctx, cs[..n], k, side, o);
      var c :| c in cs[..n] && c.observation == o && Placement(ctx, c) == Some((k, side));
      assert c in cs;
    } else {
      assert cs[n] in cs;
    }
  }

  lemma {:induction false} PlacedConcat(ctx: Context, a: seq<Classified>, b: seq<Classified>, k: GroupKey, side: Side)
    ensures Placed(ctx, a + b, k, side) == Placed(ctx, a, k, side) + Placed(ctx, b, k, side)
  {
    if b == [] {
      assert a + b == a;
    } else {
      var n := |b| - 1;
      ConcatLast(a, b);
      assert (a + b)[..|a| + n] == a + b[..n];
      hide Placement;
      PlacedConcat(ctx, a, b[..n], k, side);
    }
  }

  lemma {:induction false} PlacedIsOrderFree(ctx: Context, a: seq<Classified>, b: seq<Classified>, k: GroupKey,
                                             side: Side)
    requires multiset(a) == multiset(b)
    ensures multiset(Placed(ctx, a, k, side)) == multiset(Placed(ctx, b, k, side))
  {
    if a == [] {
      assert |multiset(b)| == 0;
      assert b == [];
    } else {
      var i := FindLast(a, b);
      PlacedIsOrderFree(ctx, a[..|a| - 1], b[..i] + b[i + 1..], k, side);
      RemoveAt(b, i);
      SplitLast(a);
      var last := a[|a| - 1];
      PlacedConcat(ctx, a[..|a| - 1], [last], k, side);
      PlacedConcat(ctx, b[..i] + [last], b[i + 1..], k, side);
      PlacedConcat(ctx, b[..i], [last], k, side);
      PlacedConcat(ctx, b[..i], b[i + 1..], k, side);
      hide Placed;
    }
  }

  lemma SameMembers(a: seq<Classified>, b: seq<Classified>, c: Classified)
    requires multiset(a) == multiset(b)
    ensures c in a <==> c in b
  {
    assert c in a <==> c in multiset(a);
    assert c in b <==> c in multiset(b);
  }

  lemma KeysAreOrderFree(ctx: Context, a: seq<Classified>, b: seq<Classified>)
    requires multiset(a) == multiset(b)
    ensures KeysOf(ctx, a) == KeysOf(ctx, b)
    ensures ExclusionStrata(ctx.callsign, a) == ExclusionStrata(ctx.callsign, b)
  {
    hide Placement, PathKeyOf;
    forall c
      ensures c in a <==> c in b
    {
      SameMembers(a, b, c);
    }
  }

  /** Groups that resolve alike, key by key. */
  ghost predicate Alike(g: map<GroupKey, Group>, h: map<GroupKey, Group>) {
    && g.Keys == h.Keys
    && forall k :: k in g ==> Resolve(g[k].left) == Resolve(h[k].left) && Resolve(g[k].right) == Resolve(h[k].right)
  }

  lemma {:induction false} SideIsOrderFree(ctx: Context, a: seq<Classified>, b: seq<Classified>, k: GroupKey,
                                           side: Side)
    requires multiset(a) == multiset(b) && ClassifiedIdsIdentify(a)
    ensures Resolve(Placed(ctx, a, k, side)) == Resolve(Placed(ctx, b, k, side))
  {
    hide Resolve, Placed, Placement;
    PlacedIsOrderFree(ctx, a, b, k, side);
    forall x, y | x in Placed(ctx, a, k, side) && y in Placed(ctx, a, k, side) && x.observationId == y.observationId
      ensures x == y
    {
      PlacedFrom(ctx, a, k, side, x);
      PlacedFrom(ctx, a, k, side, y);
    }
    ResolveIsOrderFree(Placed(ctx, a, k, side), Placed(ctx, b, k, side));
  }

  lemma GroupsAreOrderFree(ctx: Context, a: seq<Classified>, b: seq<Classified>)
    requires multiset(a) == multiset(b) && ClassifiedIdsIdentify(a)
    ensures Alike(Groups(ctx, a), Groups(ctx, b))
  {
    hide Resolve, Placed, KeysOf, ClassifiedIdsIdentify;
    KeysAreOrderFree(ctx, a, b);
    forall k | k in KeysOf(ctx, a)
      ensures Resolve(Placed(ctx, a, k, Left)) == Resolve(Placed(ctx, b, k, Left))
      ensures Resolve(Placed(ctx, a, k, Right)) == Resolve(Placed(ctx, b, k, Right))
    {
      SideIsOrderFree(ctx, a, b, k, Left);
      SideIsOrderFree(ctx, a, b, k, Right);
    }
  }

  // ----- everything built from the groups -----

  lemma RowsAreAlike(blocks: seq<Block>, g: map<GroupKey, Group>, h: map<GroupKey, Group>)
    requires Alike(g, h)
    ensures RowsOf(blocks, g) == RowsOf(blocks, h)
  {
    hide Resolve, NumSeconds, OrderAt, Abs, Snr;
    forall k | k in g
      ensures RowOf(OrderAt(blocks, k.block), g[k]) == RowOf(OrderAt(blocks, k.block), h[k])
    {
    }
    hide RowOf;
  }

  lemma {:induction false} TotalIsAlike(g: map<GroupKey, Group>, h: map<GroupKey, Group>, keys: set<GroupKey>)
    requires Alike(g, h) && keys <= g.Keys
    ensures Total(g, keys) == Total(h, keys)
  {
    if keys != {} {
      var k := Pick(keys);
      TotalIsAlike(g, h, keys - {k});
      hide Resolve, Add;
      assert Contribution(g[k]) == Contribution(h[k]);
      hide Contribution;
    }
  }

  lemma {:induction false} CountConcat(a: seq<Classified>, b: seq<Classified>, p: Classified -> bool)
    ensures CountIf(a + b, p) == CountIf(a, p) + CountIf(b, p)
  {
    if b == [] {
      assert a + b == a;
    } else {
      var n := |b| - 1;
      ConcatLast(a, b);
      assert (a + b)[..|a| + n] == a + b[..n];
      CountConcat(a, b[..n], p);
    }
  }

  lemma {:induction false} CountIsOrderFree(a: seq<Classified>, b: seq<Classified>, p: Classified -> bool)
    requires multiset(a) == multiset(b)
    ensures CountIf(a, p) == CountIf(b, p)
  {
    if a == [] {
      assert |multiset(b)| == 0;
      assert b == [];
    } else {
      var i := FindLast(a, b);
      CountIsOrderFree(a[..|a| - 1], b[..i] + b[i + 1..], p);
      RemoveAt(b, i);
      SplitLast(a);
      var last := a[|a| - 1];
      CountConcat(a[..|a| - 1], [last], p);
      CountConcat(b[..i] + [last], b[i + 1..], p);
      CountConcat(b[..i], [last], p);
      CountConcat(b[..i], b[i + 1..], p);
      hide CountIf;
    }
  }

  lemma CountsAreOrderFree(ctx: Context, a: seq<Classified>, b: seq<Classified>)
    requires multiset(a) == multiset(b)
    ensures CountAll(ctx, a) == CountAll(ctx, b)
  {
    hide CountIf, Seat, PathIdentity, ModeOf, ModeMissing;
    forall p: Classified -> bool
      ensures CountIf(a, p) == CountIf(b, p)
    {
      CountIsOrderFree(a, b, p);
    }
  }

  lemma StrataAreAlike(ctx: Context, a: seq<Classified>, b: seq<Classified>, g: map<GroupKey, Group>,
                       h: map<GroupKey, Group>,
                       rows: map<GroupKey, PairedRow>)
    requires multiset(a) == multiset(b) && Alike(g, h)
    ensures Strata(ctx, a, g, rows) == Strata(ctx, b, h, rows)
  {
    hide CountIf, ExclusionStrata, Total, Resolve, Paths, Sort, Listing, Median;
    KeysAreOrderFree(ctx, a, b);
    forall s
      ensures SummarizeStratum(g, rows, Paths(rows), CountIf(a, ExcludedFrom(ctx.callsign, s)), s)
              == SummarizeStratum(h, rows, Paths(rows), CountIf(b, ExcludedFrom(ctx.callsign, s)), s)
    {
      CountIsOrderFree(a, b, ExcludedFrom(ctx.callsign, s));
      TotalIsAlike(g, h, OnStratum(g.Keys, s));
    }
    hide SummarizeStratum;
  }

  /** Any listing order of the same observations gives the same analysis. */
  lemma ComparisonIgnoresObservationOrder(ctx: Context, a: seq<Classified>, b: seq<Classified>)
    requires multiset(a) == multiset(b) && ClassifiedIdsIdentify(a)
    ensures Analyze(ctx, a) == Analyze(ctx, b)
  {
    hide Groups, RowsOf, Total, Paths, Strata, CountAll, AvailabilityOf, Resolve, ClassifiedIdsIdentify;
    var g, h := Groups(ctx, a), Groups(ctx, b);
    GroupsAreOrderFree(ctx, a, b);
    RowsAreAlike(ctx.blocks, g, h);
    StrataAreAlike(ctx, a, b, g, h, RowsOf(ctx.blocks, g));
    CountsAreOrderFree(ctx, a, b);
    TotalIsAlike(g, h, g.Keys);
    forall p | p in PathsOf(g.Keys)
      ensures Total(g, OnPath(g.Keys, p)) == Total(h, OnPath(g.Keys, p))
    {
      TotalIsAlike(g, h, OnPath(g.Keys, p));
    }
  }
}
