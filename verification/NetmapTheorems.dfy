/** What the allocator achieves: sound mappings, closed-form positions, and optimality. */
module NetmapTheorems {
  import opened Bits
  import opened Cidrs
  import opened NetmapAllocator

  /** m maps exactly the networks in srcs, each to a network of its own size inside dst, and no two
      of the mapped networks share an address. */
  ghost predicate IsNetmap(m: map<Cidr, Cidr>, srcs: seq<Cidr>, dst: Cidr) {
    && (forall s :: s in m <==> s in srcs)
    && (forall s <- m :: s.Valid() && s.IsIPv4() && m[s].Valid() && m[s].IsIPv4()
                         && m[s].prefix == s.prefix && Within(m[s], dst))
    && DisjointValues(m)
  }

  /** Sources from the i-th on fit aligned between base and limit. */
  ghost predicate Aligned(srcs: seq<Cidr>, base: nat) {
    srcs != [] ==> srcs[0].prefix <= 32 && Low(base, 32 - srcs[0].prefix) == 0
  }

  lemma AlignedStep(srcs: seq<Cidr>, base: nat)
    requires AllIPv4(srcs) && SortedByPrefix(srcs) && Aligned(srcs, base) && srcs != []
    ensures Aligned(srcs[1..], base + srcs[0].Size())
  {
    hide Pow2, Low;
    if srcs[1..] != [] {
      var h, k := 32 - srcs[1].prefix, 32 - srcs[0].prefix;
      assert srcs[0].prefix <= srcs[1].prefix;
      LowCoarser(base, h, k);
      LowOfPow2(h, k);
      LowOfSum(base, Pow2(k), h);
    }
  }

  /** Sorted sources laid end to end from an aligned base stay aligned, keep their size, and lie between
      base and base + TotalSize(srcs). */
  lemma {:induction false} LayoutInside(srcs: seq<Cidr>, base: nat)
    requires AllIPv4(srcs) && SortedByPrefix(srcs) && Aligned(srcs, base)
    requires base + TotalSize(srcs) <= AddressSpace(32)
    ensures forall s :: s in Layout(srcs, base) <==> s in srcs
    ensures forall s <- Layout(srcs, base) :: IsShare(s, Layout(srcs, base)[s], base, TotalSize(srcs))
  {
    hide Low, Pow2;
    if srcs != [] {
      AlignedStep(srcs, base);
      LayoutInside(srcs[1..], base + srcs[0].Size());
      assert srcs == [srcs[0]] + srcs[1..];
    }
  }

  /** b is an IPv4 block of the size of s that lies among the n addresses from lo. */
  ghost predicate IsShare(s: Cidr, b: Cidr, lo: nat, n: nat) {
    && s.Valid() && s.IsIPv4() && b.Valid() && b.IsIPv4() && b.prefix == s.prefix
    && lo <= b.base && b.base + b.Size() <= lo + n
  }

  /** The values are networks, disjoint for different keys. */
  ghost predicate DisjointValues(m: map<Cidr, Cidr>) {
    && (forall s <- m :: m[s].Valid())
    && (forall s, t :: s in m && t in m && s != t ==> Disjoint(m[s], m[t]))
  }

  /** Different sources get disjoint blocks. */
  lemma {:induction false} LayoutDisjoint(srcs: seq<Cidr>, base: nat)
    requires AllIPv4(srcs) && SortedByPrefix(srcs) && Aligned(srcs, base)
    requires base + TotalSize(srcs) <= AddressSpace(32)
    ensures DisjointValues(Layout(srcs, base))
  {
    hide Low, Pow2;
    LayoutInside(srcs, base);
    if srcs != [] {
      var next := base + srcs[0].Size();
      AlignedStep(srcs, base);
      LayoutDisjoint(srcs[1..], next);
      LayoutInside(srcs[1..], next);
      AddBelow(srcs[0], Cidr(32, base, srcs[0].prefix), Layout(srcs[1..], next), next);
    }
  }

  lemma AddBelow(s: Cidr, b: Cidr, rest: map<Cidr, Cidr>, next: nat)
    requires b.Valid() && b.IsIPv4() && b.base + b.Size() <= next
    requires DisjointValues(rest) && forall t <- rest :: next <= rest[t].base
    ensures DisjointValues(map[s := b] + rest)
  {
  }

  /** Whatever order the sort picked, a fitting list of sources is mapped soundly into the destination. */
  lemma NetmapIsSound(sorted: seq<Cidr>, srcs: seq<Cidr>, dst: Cidr)
    requires dst.Valid() && NetmapFits(srcs, dst) && IsSortingOf(sorted, srcs) && AllIPv4(sorted)
    ensures IsNetmap(Layout(sorted, dst.base), srcs, dst)
  {
    hide Low, Pow2;
    SortingFacts(sorted, srcs);
    if sorted != [] {
      EndsInSpace(dst);
      assert sorted[0].Size() <= TotalSize(sorted);
      SizeOrdersPrefix(sorted[0], dst);
      LowCoarser(dst.base, 32 - sorted[0].prefix, 32 - dst.prefix);
      LayoutInside(sorted, dst.base);
      LayoutDisjoint(sorted, dst.base);
    }
  }

  lemma SizeOrdersPrefix(a: Cidr, b: Cidr)
    requires a.Valid() && b.Valid() && a.bits == b.bits && a.Size() <= b.Size()
    ensures b.prefix <= a.prefix
  {
    if a.prefix < b.prefix {
      Pow2Monotonic(b.bits - b.prefix, a.bits - a.prefix);
    }
  }

  /** The i-th source in sort order gets the destination base plus the sizes of all sources before it,
      unless a later duplicate replaces it. */
  lemma {:induction false} LayoutPosition(srcs: seq<Cidr>, base: nat, i: nat)
    requires AllIPv4(srcs) && i < |srcs| && srcs[i] !in srcs[i + 1..]
    ensures AllIPv4(srcs[..i])
    ensures srcs[i] in Layout(srcs, base)
    ensures Layout(srcs, base)[srcs[i]] == Cidr(32, base + TotalSize(srcs[..i]), srcs[i].prefix)
  {
    LayoutKeys(srcs[1..], base + srcs[0].Size());
    if i == 0 {
      assert srcs[1..] == srcs[i + 1..];
    } else {
      assert srcs[1..][i - 1] == srcs[i] && srcs[1..][i..] == srcs[i + 1..];
      assert srcs[1..][..i - 1] == srcs[..i][1..];
      LayoutPosition(srcs[1..], base + srcs[0].Size(), i - 1);
    }
  }

  lemma {:induction false} LayoutKeys(srcs: seq<Cidr>, base: nat)
    requires AllIPv4(srcs)
    ensures forall s :: s in Layout(srcs, base) <==> s in srcs
  {
    if srcs != [] {
      LayoutKeys(srcs[1..], base + srcs[0].Size());
      assert srcs == [srcs[0]] + srcs[1..];
    }
  }

  /** Any way at all of placing the sources: a block of the right size for each, inside dst, pairwise disjoint. */
  ghost predicate IsPlacement(blocks: seq<Cidr>, srcs: seq<Cidr>, dst: Cidr) {
    && |blocks| == |srcs|
    && (forall i :: 0 <= i < |blocks| ==> blocks[i].Valid() && Within(blocks[i], dst))
    && (forall i :: 0 <= i < |blocks| ==> blocks[i].prefix == srcs[i].prefix)
    && (forall i, j :: 0 <= i < j < |blocks| ==> Disjoint(blocks[i], blocks[j]))
  }

  ghost function Interval(lo: nat, n: nat): (r: set<nat>)
    ensures forall x: nat :: x in r <==> lo <= x < lo + n
  {
    if n == 0 then {} else Interval(lo, n - 1) + {lo + n - 1}
  }

  lemma {:induction false} IntervalSize(lo: nat, n: nat)
    ensures |Interval(lo, n)| == n
  {
    if n > 0 {
      IntervalSize(lo, n - 1);
    }
  }

  /** The addresses covered by the blocks. */
  ghost function Covered(blocks: seq<Cidr>): set<nat>
    requires AllIPv4(blocks)
  {
    if blocks == [] then {} else Interval(blocks[0].base, blocks[0].Size()) + Covered(blocks[1..])
  }

  lemma {:induction false} CoveredSize(blocks: seq<Cidr>, dst: Cidr)
    requires AllIPv4(blocks) && dst.Valid()
    requires forall i :: 0 <= i < |blocks| ==> Within(blocks[i], dst)
    requires forall i, j :: 0 <= i < j < |blocks| ==> Disjoint(blocks[i], blocks[j])
    ensures |Covered(blocks)| == TotalSize(blocks)
    ensures Covered(blocks) <= Interval(dst.base, dst.Size())
  {
    if blocks != [] {
      CoveredSize(blocks[1..], dst);
      IntervalSize(blocks[0].base, blocks[0].Size());
      CoveredElsewhere(blocks[1..], blocks[0]);
    }
  }

  lemma {:induction false} CoveredElsewhere(blocks: seq<Cidr>, b: Cidr)
    requires AllIPv4(blocks) && b.Valid() && b.IsIPv4()
    requires forall i :: 0 <= i < |blocks| ==> Disjoint(b, blocks[i])
    ensures Covered(blocks) !! Interval(b.base, b.Size())
  {
    if blocks != [] {
      CoveredElsewhere(blocks[1..], b);
    }
  }

  /** Counting addresses: a placement needs room for the total size. */
  lemma PlacementNeedsRoom(blocks: seq<Cidr>, srcs: seq<Cidr>, dst: Cidr)
    requires dst.Valid() && dst.IsIPv4() && AllIPv4(srcs) && IsPlacement(blocks, srcs, dst)
    ensures TotalSize(srcs) <= dst.Size()
  {
    CoveredSize(blocks, dst);
    IntervalSize(dst.base, dst.Size());
    SubsetSize(Covered(blocks), Interval(dst.base, dst.Size()));
    SameSizes(blocks, srcs);
  }

  lemma {:induction false} SubsetSize(a: set<nat>, b: set<nat>)
    requires a <= b
    ensures |a| <= |b|
  {
    assert b == a + (b - a);
  }

  lemma {:induction false} SameSizes(a: seq<Cidr>, b: seq<Cidr>)
    requires AllIPv4(a) && AllIPv4(b) && |a| == |b|
    requires forall i :: 0 <= i < |a| ==> a[i].prefix == b[i].prefix
    ensures TotalSize(a) == TotalSize(b)
  {
    if a != [] {
      SameSizes(a[1..], b[1..]);
    }
  }

  /** The end-to-end blocks of sorted sources. */
  ghost function EndToEnd(srcs: seq<Cidr>, base: nat): seq<Cidr>
    requires AllIPv4(srcs)
  {
    if srcs == [] then [] else [Cidr(32, base, srcs[0].prefix)] + EndToEnd(srcs[1..], base + srcs[0].Size())
  }

  lemma {:induction false} EndToEndIsPlacement(srcs: seq<Cidr>, base: nat, dst: Cidr)
    requires AllIPv4(srcs) && SortedByPrefix(srcs) && Aligned(srcs, base)
    requires dst.Valid() && dst.IsIPv4() && dst.base <= base
    requires base + TotalSize(srcs) <= dst.base + dst.Size()
    ensures IsPlacement(EndToEnd(srcs, base), srcs, dst)
    ensures forall i :: 0 <= i < |srcs| ==> base <= EndToEnd(srcs, base)[i].base
  {
    hide Low, Pow2;
    if srcs != [] {
      var next := base + srcs[0].Size();
      AlignedStep(srcs, base);
      EndsInSpace(dst);
      EndToEndIsPlacement(srcs[1..], next, dst);
      PlaceBelow(Cidr(32, base, srcs[0].prefix), EndToEnd(srcs[1..], next), srcs, next, dst);
    }
  }

  lemma PlaceBelow(b: Cidr, blocks: seq<Cidr>, srcs: seq<Cidr>, next: nat, dst: Cidr)
    requires dst.Valid() && srcs != [] && IsPlacement(blocks, srcs[1..], dst)
    requires b.Valid() && Within(b, dst) && b.prefix == srcs[0].prefix && b.base + b.Size() <= next
    requires forall i :: 0 <= i < |blocks| ==> next <= blocks[i].base
    ensures IsPlacement([b] + blocks, srcs, dst)
  {
    hide Low, Pow2;
  }

  /** Optimality: apart from the wrapped /0 split, NetmapSubnets succeeds exactly when some placement of
      the sources, listed in any order, exists at all. */
  lemma FitsIffPlaceable(srcs: seq<Cidr>, dst: Cidr)
    requires dst.Valid() && dst.IsIPv4() && AllIPv4(srcs) && (srcs != [] ==> !WrappedSplit(srcs, dst))
    ensures NetmapFits(srcs, dst) <==>
            exists order, blocks :: multiset(order) == multiset(srcs) && IsPlacement(blocks, order, dst)
  {
    hide Low, Pow2;
    if NetmapFits(srcs, dst) {
      InsertionSorts(srcs);
      var sorted := InsertionSorted(srcs);
      SortingFacts(sorted, srcs);
      if sorted != [] {
        SizeOrdersPrefix(sorted[0], dst);
        LowCoarser(dst.base, 32 - sorted[0].prefix, 32 - dst.prefix);
      }
      EndToEndIsPlacement(sorted, dst.base, dst);
      assert multiset(sorted) == multiset(srcs) && IsPlacement(EndToEnd(sorted, dst.base), sorted, dst);
    }
    forall order, blocks | multiset(order) == multiset(srcs) && IsPlacement(blocks, order, dst)
      ensures NetmapFits(srcs, dst)
    {
      PermutedIPv4(order, srcs);
      TotalSizePermutation(order, srcs);
      PlacementNeedsRoom(blocks, order, dst);
    }
  }

  lemma PermutedIPv4(order: seq<Cidr>, srcs: seq<Cidr>)
    requires AllIPv4(srcs) && multiset(order) == multiset(srcs)
    ensures AllIPv4(order)
  {
    forall i | 0 <= i < |order| ensures order[i].Valid() && order[i].IsIPv4() {
      assert order[i] in multiset(srcs);
    }
  }

  /** There is such a sort, insertion sort for one. */
  lemma SomeSorter()
    ensures IsSorter(InsertionSorted)
  {
    forall ns ensures IsSortingOf(InsertionSorted(ns), ns) {
      InsertionSorts(ns);
    }
  }

  function InsertionSorted(ns: seq<Cidr>): seq<Cidr> {
    if ns == [] then [] else Insert(InsertionSorted(ns[1..]), ns[0])
  }

  lemma {:induction false} InsertionSorts(ns: seq<Cidr>)
    ensures IsSortingOf(InsertionSorted(ns), ns)
  {
    if ns != [] {
      InsertionSorts(ns[1..]);
      assert ns == [ns[0]] + ns[1..];
      InsertAdds(InsertionSorted(ns[1..]), ns[0]);
      InsertSorts(InsertionSorted(ns[1..]), ns[0]);
    }
  }

  /** The one family the source turns away although it fits: a /0 destination holds 2^32 /32 networks, but
      NetmapSubnets places not even one, because 1 << 32 is 0 on a uint32. */
  lemma WrappedSplitFails(srcs: seq<Cidr>, dst: Cidr)
    requires dst.Valid() && dst.IsIPv4() && AllIPv4(srcs) && srcs != [] && WrappedSplit(srcs, dst)
    ensures !NetmapFits(srcs, dst)
    ensures TotalSize(srcs) == |srcs|
    ensures dst.Size() == AddressSpace(32)
  {
    AddressSpaceIsPow2(32);
    HostSizes(srcs);
  }

  lemma {:induction false} HostSizes(srcs: seq<Cidr>)
    requires AllIPv4(srcs) && forall s :: s in srcs ==> s.prefix == 32
    ensures TotalSize(srcs) == |srcs|
  {
    if srcs != [] {
      assert srcs[0] in srcs;
      HostSizes(srcs[1..]);
    }
  }
}
