/** mapSubnetsRec, NetmapSubnets and ShootNetworksForNetmap on top of the split. */
module NetmapAllocator {
  import opened Bits
  import opened Cidrs
  import opened Netmap

  /** The map the recursive closure writes its results into. */
  class ResultMap {
    var entries: map<Cidr, Cidr>

    constructor ()
      ensures entries == map[]
    {
      entries := map[];
    }
  }

  ghost predicate AllIPv4(ns: seq<Cidr>) {
    forall i :: 0 <= i < |ns| ==> ns[i].Valid() && ns[i].IsIPv4()
  }

  ghost predicate SortedByPrefix(ns: seq<Cidr>) {
    forall i, j :: 0 <= i < j < |ns| ==> ns[i].prefix <= ns[j].prefix
  }

  ghost predicate IsSortingOf(sorted: seq<Cidr>, ns: seq<Cidr>) {
    SortedByPrefix(sorted) && multiset(sorted) == multiset(ns)
  }

  /** The addresses all sources need together, duplicates counted. */
  ghost function TotalSize(ns: seq<Cidr>): (r: nat)
    requires AllIPv4(ns)
    ensures ns != [] ==> r >= 1
  {
    if ns == [] then 0 else ns[0].Size() + TotalSize(ns[1..])
  }

  /** Sources laid end to end from base: each gets base plus the sizes of those before it.
      A later entry for the same source replaces an earlier one. */
  ghost function Layout(srcs: seq<Cidr>, base: nat): map<Cidr, Cidr>
    requires AllIPv4(srcs)
  {
    if srcs == [] then map[]
    else map[srcs[0] := Cidr(32, base, srcs[0].prefix)] + Layout(srcs[1..], base + srcs[0].Size())
  }

  /** A row that lies aligned inside the IPv4 address space. */
  ghost predicate IsFreeRow(subnets: seq<Cidr>, base: nat, prefix: nat, n: nat) {
    && prefix <= 32
    && IsRow(subnets, base, prefix, n)
    && Low(base, 32 - prefix) == 0
    && base + ShiftLeft(n, 32 - prefix) <= AddressSpace(32)
  }

  /** What the recursion starts with when the destination is an IPv6 network. */
  ghost predicate IsIPv6Start(subnets: seq<Cidr>) {
    |subnets| == 1 && subnets[0].Valid() && !subnets[0].IsIPv4()
  }

  /** The outcome of cutting every free block at a longer prefix: an error, no block (nothing left, or the
      wrapped /0 split), or a free row over the same addresses. */
  ghost predicate IsSplit(dstSubnets: seq<Cidr>, prefix: nat, base: nat, q: nat, r: Result<seq<Cidr>>)
    requires prefix <= 32
  {
    if IsIPv6Start(dstSubnets) then
      r == Err(if prefix < dstSubnets[0].prefix then InvalidNewPrefix else OnlyIPv4)
    else if dstSubnets == [] then r == Ok([])
    else if prefix < q then r == Err(InvalidNewPrefix)
    else if q == 0 && prefix == 32 then r == Ok([])
    else
      && r.Ok? && |r.value| == ShiftLeft(|dstSubnets|, prefix - q)
      && IsFreeRow(r.value, base, prefix, |r.value|)
  }

  method SplitAll(dstSubnets: seq<Cidr>, prefix: nat, ghost base: nat, ghost q: nat)
    returns (r: Result<seq<Cidr>>)
    requires IsFreeRow(dstSubnets, base, q, |dstSubnets|) || IsIPv6Start(dstSubnets)
    requires prefix <= 32
    ensures IsSplit(dstSubnets, prefix, base, q, r)
  {
    var candidateSubnets: seq<Cidr> := [];
    ghost var ipv6 := IsIPv6Start(dstSubnets);
    if !ipv6 && q <= prefix {
      ShiftZeroIff(0, prefix - q);
      LowCoarser(base, 32 - prefix, 32 - q);
      ShiftTwice(|dstSubnets|, prefix - q, 32 - prefix);
    }
    for i := 0 to |dstSubnets|
      invariant i > 0 ==> !ipv6 && q <= prefix
      invariant q == 0 && prefix == 32 ==> candidateSubnets == []
      invariant !ipv6 && q <= prefix && !(q == 0 && prefix == 32) ==>
                  IsRow(candidateSubnets, base, prefix, ShiftLeft(i, prefix - q))
      invariant i == 0 ==> candidateSubnets == []
    {
      if !ipv6 {
        RowElement(dstSubnets, base, q, i);
      }
      var subnets := SubnetSplit(dstSubnets[i], prefix);
      if subnets.Err? {
        return Err(subnets.error);
      }
      if !(q == 0 && prefix == 32) {
        JoinRows(candidateSubnets, subnets.value, base, q, prefix, i);
      }
      candidateSubnets := candidateSubnets + subnets.value;
    }
    return Ok(candidateSubnets);
  }

  lemma RowElement(subnets: seq<Cidr>, base: nat, q: nat, i: nat)
    requires IsFreeRow(subnets, base, q, |subnets|) && i < |subnets|
    ensures subnets[i].Valid() && subnets[i].bits == 32 && subnets[i].prefix == q
    ensures subnets[i].base == base + ShiftLeft(i, 32 - q)
  {
    hide Pow2, Low, ShiftLeft;
    ShiftBelow(i, |subnets|, 32 - q);
    LowOfShift(i, 32 - q);
    LowOfSum(base, ShiftLeft(i, 32 - q), 32 - q);
  }

  lemma JoinRows(done: seq<Cidr>, more: seq<Cidr>, base: nat, q: nat, p: nat, i: nat)
    requires q <= p <= 32
    requires IsRow(done, base, p, ShiftLeft(i, p - q))
    requires IsRow(more, base + ShiftLeft(i, 32 - q), p, Pow2(p - q))
    ensures IsRow(done + more, base, p, ShiftLeft(i + 1, p - q))
  {
    hide Pow2, ShiftLeft;
    var k := ShiftLeft(i, p - q);
    ShiftSum(i, 1, p - q);
    ShiftTwice(i, p - q, 32 - p);
    forall j | k <= j < k + Pow2(p - q)
      ensures (done + more)[j] == Block(base, p, j)
    {
      ShiftSum(k, j - k, 32 - p);
    }
  }

  /** When mapSubnetsRec finds room for every source in a free row of n /q blocks. The second conjunct
      is the uint32 wrap: a /0 asked for /32 blocks is split into none. */
  ghost predicate FitsRow(srcs: seq<Cidr>, q: nat, n: nat)
    requires AllIPv4(srcs) && q <= 32
  {
    srcs == [] || (TotalSize(srcs) <= ShiftLeft(n, 32 - q) && !(q == 0 && srcs[0].prefix == 32))
  }

  /** The error mapSubnetsRec returns, if any. */
  ghost function RecOutcome(srcs: seq<Cidr>, dstSubnets: seq<Cidr>, q: nat): Option<Error>
    requires AllIPv4(srcs) && (q <= 32 || IsIPv6Start(dstSubnets))
  {
    if srcs == [] then None
    else if IsIPv6Start(dstSubnets) then
      Some(if srcs[0].prefix < dstSubnets[0].prefix then InvalidNewPrefix else OnlyIPv4)
    else if FitsRow(srcs, q, |dstSubnets|) then None
    else Some(if dstSubnets != [] && srcs[0].prefix < q then InvalidNewPrefix else NotEnoughSpace)
  }

  /** The recursive mapping: split the free blocks to the size of the largest source left, give it the
      first block, continue with the rest. */
  method MapSubnetsRec(srcs: seq<Cidr>, dstSubnets: seq<Cidr>, result: ResultMap, ghost base: nat, ghost q: nat)
    returns (err: Option<Error>)
    requires AllIPv4(srcs) && SortedByPrefix(srcs)
    requires IsFreeRow(dstSubnets, base, q, |dstSubnets|) || IsIPv6Start(dstSubnets)
    requires |dstSubnets| <= 1 || srcs == [] || q <= srcs[0].prefix
    modifies result
    ensures err == RecOutcome(srcs, dstSubnets, q)
    ensures err.None? ==> result.entries == old(result.entries) + Layout(srcs, base)
    decreases |srcs|
  {
    if |srcs| == 0 {
      return None;
    }
    hide Pow2, Low, ShiftLeft, TotalSize, Layout, FitsRow, IsFreeRow, IsRow, RecOutcome;
    var src := srcs[0];
    var candidates := SplitAll(dstSubnets, src.prefix, base, q);
    RecOutcomeStep(srcs, dstSubnets, candidates, base, q);
    if candidates.Err? {
      return Some(candidates.error);
    }
    var candidateSubnets := candidates.value;
    if |candidateSubnets| == 0 {
      return Some(NotEnoughSpace);
    }
    var mapped := NetmapSubnet(src, candidateSubnets[0]);
    assert mapped.Ok?; // both networks are IPv4, so netmapSubnet has no error to return
    LayoutStep(result.entries, srcs, base);
    result.entries := result.entries[src := mapped.value];
    err := MapSubnetsRec(srcs[1..], candidateSubnets[1..], result, base + src.Size(), src.prefix);
  }

  /** One level of the recursion: what the split says about the outcome, and the state the next level gets. */
  lemma RecOutcomeStep(srcs: seq<Cidr>, dstSubnets: seq<Cidr>, candidates: Result<seq<Cidr>>, base: nat, q: nat)
    requires AllIPv4(srcs) && SortedByPrefix(srcs) && srcs != []
    requires IsFreeRow(dstSubnets, base, q, |dstSubnets|) || IsIPv6Start(dstSubnets)
    requires |dstSubnets| <= 1 || q <= srcs[0].prefix
    requires IsSplit(dstSubnets, srcs[0].prefix, base, q, candidates)
    ensures candidates.Err? ==> RecOutcome(srcs, dstSubnets, q) == Some(candidates.error)
    ensures candidates == Ok([]) ==> RecOutcome(srcs, dstSubnets, q) == Some(NotEnoughSpace)
    ensures candidates.Ok? && candidates.value != [] ==>
              var row := candidates.value;
              && NetmapSubnet(srcs[0], row[0]) == Ok(Cidr(32, base, srcs[0].prefix))
              && IsFreeRow(row[1..], base + srcs[0].Size(), srcs[0].prefix, |row| - 1)
              && RecOutcome(srcs, dstSubnets, q) == RecOutcome(srcs[1..], row[1..], srcs[0].prefix)
  {
    hide Pow2, Low, ShiftLeft;
    if !IsIPv6Start(dstSubnets) {
      RowBound(dstSubnets, base, q);
      FitsStep(srcs, q, |dstSubnets|);
      if candidates.Ok? && candidates.value != [] {
        RowElement(candidates.value, base, srcs[0].prefix, 0);
        RowTail(candidates.value, base, srcs[0].prefix);
        NetmapSubnetIsBlock(srcs[0], candidates.value[0]);
      }
    }
  }

  lemma LayoutStep(m: map<Cidr, Cidr>, srcs: seq<Cidr>, base: nat)
    requires AllIPv4(srcs) && srcs != []
    ensures m + Layout(srcs, base)
         == m[srcs[0] := Cidr(32, base, srcs[0].prefix)] + Layout(srcs[1..], base + srcs[0].Size())
  {
  }

  /** Only a single block can have prefix 0. */
  lemma RowBound(row: seq<Cidr>, base: nat, q: nat)
    requires IsFreeRow(row, base, q, |row|)
    ensures |row| <= 1 || q >= 1
  {
    if |row| > 1 && q == 0 {
      AddressSpaceIsPow2(32);
      ShiftBelow(1, |row|, 32);
      ShiftSum(0, 1, 32);
    }
  }

  lemma RowTail(row: seq<Cidr>, base: nat, p: nat)
    requires IsFreeRow(row, base, p, |row|) && row != []
    ensures IsFreeRow(row[1..], base + Pow2(32 - p), p, |row| - 1)
    ensures row[0] == Cidr(32, base, p)
  {
    hide Pow2, Low, ShiftLeft;
    ShiftSum(1, |row| - 1, 32 - p);
    ShiftSum(0, 1, 32 - p);
    LowOfPow2(32 - p, 32 - p);
    LowOfSum(base, Pow2(32 - p), 32 - p);
    forall i | 0 <= i < |row| - 1
      ensures row[1..][i] == Block(base + Pow2(32 - p), p, i)
    {
      ShiftSum(1, i, 32 - p);
    }
  }

  /** Room for all sources is room for the first and, in what it leaves, room for the others. */
  lemma FitsStep(srcs: seq<Cidr>, q: nat, n: nat)
    requires AllIPv4(srcs) && SortedByPrefix(srcs) && srcs != [] && q <= 32
    requires n <= 1 || 1 <= q <= srcs[0].prefix
    ensures srcs[0].prefix < q ==> !FitsRow(srcs, q, n)
    ensures n == 0 ==> !FitsRow(srcs, q, n)
    ensures n > 0 && q <= srcs[0].prefix && !(q == 0 && srcs[0].prefix == 32) ==>
              var m := ShiftLeft(n, srcs[0].prefix - q);
              m > 0 && (FitsRow(srcs, q, n) <==> FitsRow(srcs[1..], srcs[0].prefix, m - 1))
  {
    hide Pow2, Low, ShiftLeft;
    var p := srcs[0].prefix;
    ShiftZeroIff(n, 32 - q);
    ShiftSum(0, 1, 32 - q);
    if p < q {
      Pow2Monotonic(32 - q, 32 - p);
    } else if n > 0 {
      var m := ShiftLeft(n, p - q);
      ShiftZeroIff(n, p - q);
      ShiftTwice(n, p - q, 32 - p);
      ShiftSum(1, m - 1, 32 - p);
      assert ShiftLeft(n, 32 - q) == Pow2(32 - p) + ShiftLeft(m - 1, 32 - p);
      assert TotalSize(srcs) == Pow2(32 - p) + TotalSize(srcs[1..]);
      assert srcs[1..] == [] ==> TotalSize(srcs[1..]) == 0;
      if p == 0 {
        ShiftByZero(n);
        ShiftZeroIff(0, 32);
      }
    }
  }

  /** What NetmapSubnets needs to succeed: IPv4 throughout, enough addresses in total (duplicates counted),
      and not the wrapped split of a /0 destination into /32s. */
  ghost predicate NetmapFits(srcs: seq<Cidr>, dst: Cidr) {
    && AllIPv4(srcs)
    && (srcs == [] ||
        (dst.IsIPv4() && TotalSize(srcs) <= dst.Size() && !WrappedSplit(srcs, dst)))
  }

  ghost predicate WrappedSplit(srcs: seq<Cidr>, dst: Cidr) {
    dst.prefix == 0 && forall s :: s in srcs ==> s.prefix == 32
  }

  /** What sort.Slice by prefix does. It is not stable, so any function that sorts will do; but it is a function:
      the same list comes out in the same order everywhere. */
  type Sorter = seq<Cidr> -> seq<Cidr>

  ghost predicate IsSorter(sort: Sorter) {
    forall ns :: IsSortingOf(sort(ns), ns)
  }

  function Insert(sorted: seq<Cidr>, n: Cidr): seq<Cidr> {
    if sorted == [] || n.prefix < sorted[0].prefix then [n] + sorted
    else [sorted[0]] + Insert(sorted[1..], n)
  }

  lemma {:induction false} InsertAdds(sorted: seq<Cidr>, n: Cidr)
    ensures multiset(Insert(sorted, n)) == multiset(sorted) + multiset{n}
  {
    if sorted != [] {
      InsertAdds(sorted[1..], n);
      assert sorted == [sorted[0]] + sorted[1..];
    }
  }

  lemma {:induction false} InsertSorts(sorted: seq<Cidr>, n: Cidr)
    requires SortedByPrefix(sorted)
    ensures SortedByPrefix(Insert(sorted, n))
    ensures Insert(sorted, n)[0].prefix == if sorted == [] || n.prefix < sorted[0].prefix then n.prefix else sorted[0].prefix
  {
    if sorted == [] || n.prefix < sorted[0].prefix {
    } else {
      InsertSorts(sorted[1..], n);
    }
  }

  /** NetmapSubnets (and NetmapCIDRs, which calls it on the printed networks): the mapping is the sources laid end
      to end in sorted order. */
  method NetmapSubnets(srcCIDRs: seq<Cidr>, dst: Cidr, sort: Sorter) returns (r: Result<map<Cidr, Cidr>>)
    requires AllValid(srcCIDRs) && dst.Valid() && IsSorter(sort)
    ensures r.Ok? <==> NetmapFits(srcCIDRs, dst)
    ensures !AllIPv4(srcCIDRs) ==> r == Err(OnlyIPv4)
    ensures r.Err? ==> r.error in {InvalidNewPrefix, OnlyIPv4, NotEnoughSpace}
    ensures r.Ok? ==> IsSortingOf(sort(srcCIDRs), srcCIDRs) && AllIPv4(sort(srcCIDRs))
                      && r.value == Layout(sort(srcCIDRs), dst.base)
  {
    for i := 0 to |srcCIDRs|
      invariant AllIPv4(srcCIDRs[..i])
    {
      if srcCIDRs[i].bits != 32 {
        return Err(OnlyIPv4);
      }
    }
    assert srcCIDRs[..|srcCIDRs|] == srcCIDRs;
    var srcInfos := sort(srcCIDRs);
    SortingFacts(srcInfos, srcCIDRs);
    StartRow(srcInfos, srcCIDRs, dst);
    var result := new ResultMap();
    var err := MapSubnetsRec(srcInfos, [dst], result, dst.base, dst.prefix);
    if err.Some? {
      return Err(err.value);
    }
    return Ok(result.entries);
  }

  lemma SortingFacts(sorted: seq<Cidr>, ns: seq<Cidr>)
    requires AllIPv4(ns) && IsSortingOf(sorted, ns)
    ensures AllIPv4(sorted) && (sorted == [] <==> ns == [])
    ensures forall n :: n in sorted <==> n in ns
    ensures TotalSize(sorted) == TotalSize(ns)
  {
    forall n ensures n in sorted <==> n in ns {
      assert n in multiset(sorted) <==> n in multiset(ns);
    }
    forall i | 0 <= i < |sorted| ensures sorted[i].Valid() && sorted[i].IsIPv4() {
      assert sorted[i] in ns;
    }
    assert |multiset(sorted)| == |sorted| && |multiset(ns)| == |ns|;
    TotalSizePermutation(sorted, ns);
  }

  lemma {:induction false} TotalSizeConcat(a: seq<Cidr>, b: seq<Cidr>)
    requires AllIPv4(a) && AllIPv4(b)
    ensures AllIPv4(a + b) && TotalSize(a + b) == TotalSize(a) + TotalSize(b)
  {
    if a == [] {
      assert a + b == b;
    } else {
      TotalSizeConcat(a[1..], b);
      assert (a + b)[1..] == a[1..] + b;
    }
  }

  lemma TotalSizeWithout(b: seq<Cidr>, k: nat)
    requires AllIPv4(b) && k < |b|
    ensures var rest := b[..k] + b[k + 1..];
            && AllIPv4(rest) && TotalSize(b) == b[k].Size() + TotalSize(rest)
            && multiset(b) == multiset{b[k]} + multiset(rest)
  {
    var tail := b[k..];
    assert b == b[..k] + tail && tail[1..] == b[k + 1..] && tail == [b[k]] + tail[1..];
    TotalSizeConcat(b[..k], tail);
    TotalSizeConcat(b[..k], tail[1..]);
  }

  lemma {:induction false} TotalSizePermutation(a: seq<Cidr>, b: seq<Cidr>)
    requires AllIPv4(a) && AllIPv4(b) && multiset(a) == multiset(b)
    ensures TotalSize(a) == TotalSize(b)
    decreases |a|
  {
    assert |multiset(a)| == |a| && |multiset(b)| == |b|;
    if a != [] {
      assert a[0] in multiset(b);
      var k :| 0 <= k < |b| && b[k] == a[0];
      TotalSizeWithout(b, k);
      assert a == [a[0]] + a[1..];
      assert multiset(a[1..]) == multiset(a) - multiset{a[0]};
      assert multiset(b[..k] + b[k + 1..]) == multiset(b) - multiset{b[k]};
      TotalSizePermutation(a[1..], b[..k] + b[k + 1..]);
    }
  }

  /** The destination alone is a free row of one block, on which FitsRow reads as NetmapFits. */
  lemma StartRow(sorted: seq<Cidr>, ns: seq<Cidr>, dst: Cidr)
    requires AllIPv4(ns) && IsSortingOf(sorted, ns) && dst.Valid()
    requires AllIPv4(sorted) && (sorted == [] <==> ns == []) && TotalSize(sorted) == TotalSize(ns)
    requires forall n :: n in sorted <==> n in ns
    ensures !dst.IsIPv4() ==> IsIPv6Start([dst])
    ensures dst.IsIPv4() ==> IsFreeRow([dst], dst.base, dst.prefix, 1)
    ensures dst.IsIPv4() ==> (FitsRow(sorted, dst.prefix, 1) <==> NetmapFits(ns, dst))
  {
    hide Pow2, Low, ShiftLeft;
    EndsInSpace(dst);
    ShiftSum(0, 1, dst.bits - dst.prefix);
    ShiftZeroIff(0, dst.bits - dst.prefix);
    if sorted != [] && dst.prefix == 0 {
      assert sorted[0] in ns;
      assert forall s :: s in ns ==> sorted[0].prefix <= s.prefix <= 32 by {
        forall s | s in ns ensures sorted[0].prefix <= s.prefix <= 32 {
          var i :| 0 <= i < |sorted| && sorted[i] == s;
        }
      }
    }
  }
}
