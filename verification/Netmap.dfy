/** The NETMAP subnet allocator (pkg/network/netmap.go): source networks are placed, largest first,
    into a destination range by splitting the free blocks and taking the first one. */
module Netmap {
  import opened Bits
  import opened Cidrs

  /** The value a uint32 keeps of x. */
  function Uint32(x: int): nat {
    x % 0x1_0000_0000
  }

  /** 1 << k on a uint32: the bit falls off the end once k reaches 32. */
  function OneShiftedLeft(k: nat): nat {
    Uint32(ShiftLeft(1, k))
  }

  /** The block with the given index in the row of /prefix blocks that starts at base. */
  function Block(base: nat, prefix: nat, index: nat): Cidr
    requires prefix <= 32
  {
    Cidr(32, base + ShiftLeft(index, 32 - prefix), prefix)
  }

  /** subnets is the row of n /prefix blocks that starts at base, in address order and without gaps. */
  ghost predicate IsRow(subnets: seq<Cidr>, base: nat, prefix: nat, n: nat)
    requires prefix <= 32
  {
    |subnets| == n && forall i :: 0 <= i < n ==> subnets[i] == Block(base, prefix, i)
  }

  /** base + c * incr on a uint32. */
  function BlockAddress(base: nat, c: nat, incr: nat): nat {
    Uint32(base + Uint32(c * incr))
  }

  /** The number of blocks subnetSplit makes; 1 << 32 has wrapped to 0 for a /0 split into /32s. */
  function SplitCount(parentPrefix: nat, newPrefix: nat): nat
    requires parentPrefix <= newPrefix <= 32
  {
    if parentPrefix == 0 && newPrefix == 32 then 0 else Pow2(newPrefix - parentPrefix)
  }

  /** subnetSplit, with the uint32 arithmetic of the source written out. */
  method SubnetSplit(parent: Cidr, newPrefixLen: nat) returns (r: Result<seq<Cidr>>)
    requires parent.Valid()
    ensures newPrefixLen < parent.prefix || newPrefixLen > parent.bits ==> r == Err(InvalidNewPrefix)
    ensures parent.prefix <= newPrefixLen <= parent.bits && parent.bits != 32 ==> r == Err(OnlyIPv4)
    ensures parent.prefix <= newPrefixLen <= parent.bits && parent.bits == 32 ==>
              r.Ok? && IsRow(r.value, parent.base, newPrefixLen, SplitCount(parent.prefix, newPrefixLen))
  {
    hide Uint32, OneShiftedLeft, BlockAddress, Pow2, Low, ShiftLeft;
    if newPrefixLen < parent.prefix || newPrefixLen > parent.bits {
      return Err(InvalidNewPrefix);
    }
    var numSubnets := OneShiftedLeft(newPrefixLen - parent.prefix);
    if parent.bits != 32 {
      return Err(OnlyIPv4);
    }
    OneShiftedLeftValue(newPrefixLen - parent.prefix);
    var incr := OneShiftedLeft(32 - newPrefixLen);
    var subnets: seq<Cidr> := [];
    var countSubnets := 0;
    while countSubnets < numSubnets
      invariant 0 <= countSubnets <= numSubnets
      invariant IsRow(subnets, parent.base, newPrefixLen, countSubnets)
    {
      SplitDoesNotWrap(parent, newPrefixLen, countSubnets, incr);
      var ipInt := BlockAddress(parent.base, countSubnets, incr);
      var masked := ipInt - Low(ipInt, 32 - newPrefixLen);
      subnets := subnets + [Cidr(32, masked, newPrefixLen)];
      countSubnets := countSubnets + 1;
    }
    return Ok(subnets);
  }

  lemma OneShiftedLeftValue(k: nat)
    ensures OneShiftedLeft(k) == if k < 32 then Pow2(k) else 0
  {
    hide Pow2, Low, ShiftLeft;
    ShiftSum(0, 1, k);
    Pow2Values();
    if k < 32 {
      Pow2Monotonic(k, 32);
    } else {
      LowOfPow2(32, k);
      LowIsRemainder(Pow2(k), 32);
    }
  }

  lemma UintSum(x: nat, y: nat)
    requires x + y < 0x1_0000_0000
    ensures Uint32(x + Uint32(y)) == x + y
  {
  }

  /** Inside the parent the block addresses stay below 2^32: the uint32 arithmetic does not wrap,
      and masking the address changes nothing. */
  lemma SplitDoesNotWrap(parent: Cidr, p: nat, c: nat, incr: nat)
    requires parent.Valid() && parent.bits == 32 && parent.prefix <= p <= 32
    requires c < Pow2(p - parent.prefix) && incr == OneShiftedLeft(32 - p)
    ensures Block(parent.base, p, c).Valid()
    ensures BlockAddress(parent.base, c, incr) == Block(parent.base, p, c).base
  {
    hide Pow2, Low, ShiftLeft, Uint32, OneShiftedLeft;
    BlockInParent(parent, p, c);
    OneShiftedLeftValue(32 - p);
    MultiplyIsShift(c, 32 - p);
    UintSum(parent.base, c * incr);
  }

  /** Every block of the split is a network inside the parent. */
  lemma BlockInParent(parent: Cidr, p: nat, c: nat)
    requires parent.Valid() && parent.bits == 32 && parent.prefix <= p <= 32
    requires c < Pow2(p - parent.prefix)
    ensures Block(parent.base, p, c).Valid()
    ensures Within(Block(parent.base, p, c), parent)
  {
    hide Pow2, Low, ShiftLeft;
    ChunkInside(parent.base, p - parent.prefix, 32 - p, c);
    EndsInSpace(parent);
  }

  /** netmapIP on address values: the host part of ip under the subnet's mask, on the subnet's base. */
  function NetmapAddress(ip: nat, subnet: Cidr): nat {
    subnet.base + Low(ip, subnet.HostBits())
  }

  function NetmapSubnet(src: Cidr, dst: Cidr): Result<Cidr> {
    if !src.IsIPv4() || !dst.IsIPv4() then Err(OnlyIPv4)
    else Ok(Cidr(32, NetmapAddress(src.base, dst), dst.prefix))
  }

  /** A source mapped onto a block no larger than itself yields exactly that block. */
  lemma NetmapSubnetIsBlock(src: Cidr, dst: Cidr)
    requires src.Valid() && dst.Valid() && src.IsIPv4() && dst.IsIPv4()
    requires src.prefix <= dst.prefix
    ensures NetmapSubnet(src, dst) == Ok(dst)
  {
    LowCoarser(src.base, 32 - dst.prefix, 32 - src.prefix);
  }
}
