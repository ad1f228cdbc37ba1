/** IP networks as the repository handles them: masked prefixes of one address family
    (pkg/network/types.go). An address is a number below 2^bits. */
module Cidrs {
  import opened Bits

  datatype Option<+T> = None | Some(value: T)

  /** Error values, one for each distinct error the modelled code returns. */
  datatype Error =
    | InvalidNewPrefix | OnlyIPv4 | NotEnoughSpace
    | VpnNetworkUnset | VpnNetworkNotIPv6 | VpnNetworkBadPrefix | HAMismatch
    | IPTablesFailed | LinkNotFound | RouteFailed

  datatype Result<+T> = Ok(value: T) | Err(error: Error)

  /** The number of addresses of a family: 2^32 or 2^128. */
  function AddressSpace(bits: nat): nat {
    if bits == 32 then 0x1_0000_0000 else 0x1_0000_0000_0000_0000_0000_0000_0000_0000
  }

  lemma AddressSpaceIsPow2(bits: nat)
    requires bits == 32 || bits == 128
    ensures AddressSpace(bits) == Pow2(bits)
  {
    Pow2Values();
    Pow2Of128();
  }

  /** An address of the family with the given width (32 or 128 bits). */
  datatype Address = Address(bits: nat, value: nat) {
    ghost predicate Valid() {
      (bits == 32 || bits == 128) && value < AddressSpace(bits)
    }
  }

  /** A network base/prefix. Parsing masks the host bits off, hence the alignment in Valid. */
  datatype Cidr = Cidr(bits: nat, base: nat, prefix: nat) {
    ghost predicate Valid() {
      && (bits == 32 || bits == 128)
      && prefix <= bits
      && base < AddressSpace(bits)
      && Low(base, bits - prefix) == 0
    }

    predicate IsIPv4() {
      bits == 32
    }

    function HostBits(): nat {
      if prefix <= bits then bits - prefix else 0
    }

    /** The number of addresses in the network. */
    function Size(): nat {
      Pow2(HostBits())
    }

    /** The interval reading of membership; ContainsIsInterval ties it to the mask comparison. */
    ghost predicate Has(a: Address) {
      a.bits == bits && base <= a.value < base + Size()
    }
  }

  /** Membership as the mask test does it: same width and equal network part. */
  predicate Contains(n: Cidr, a: Address) {
    a.bits == n.bits && a.value - Low(a.value, n.HostBits()) == n.base
  }

  predicate Overlap(a: Cidr, b: Cidr) {
    Contains(a, Address(b.bits, b.base)) || Contains(b, Address(a.bits, a.base))
  }

  ghost predicate Disjoint(a: Cidr, b: Cidr) {
    a.bits != b.bits || a.base + a.Size() <= b.base || b.base + b.Size() <= a.base
  }

  /** inner lies inside outer. */
  ghost predicate Within(inner: Cidr, outer: Cidr) {
    inner.bits == outer.bits && outer.base <= inner.base && inner.base + inner.Size() <= outer.base + outer.Size()
  }

  ghost predicate AllValid(ns: seq<Cidr>) {
    forall n <- ns :: n.Valid()
  }

  lemma ContainsIsInterval(n: Cidr, a: Address)
    requires n.Valid()
    ensures Contains(n, a) <==> n.Has(a)
  {
    var h := n.bits - n.prefix;
    LowBound(a.value, h);
    if n.Has(a) {
      LowOfSum(n.base, a.value - n.base, h);
      LowOfSmall(a.value - n.base, h);
    }
  }

  /** Every masked address is a network: parsing yields nothing the model excludes. */
  lemma MaskedIsValid(a: Address, prefix: nat, base: nat)
    requires (a.bits == 32 && a.value < 0x1_0000_0000) || (a.bits == 128 && a.value < AddressSpace(128))
    requires prefix <= a.bits && base + Low(a.value, a.bits - prefix) == a.value
    ensures Cidr(a.bits, base, prefix).Valid() && a.Valid() && Contains(Cidr(a.bits, base, prefix), a)
  {
    LowBound(a.value, a.bits - prefix);
    LowCleared(a.value, a.bits - prefix);
  }

  /** A network never reaches beyond the address space of its family. */
  lemma EndsInSpace(n: Cidr)
    requires n.Valid()
    ensures n.base + n.Size() <= AddressSpace(n.bits)
  {
    AddressSpaceIsPow2(n.bits);
    LowOfPow2(n.bits - n.prefix, n.bits);
    AlignedApart(n.base, Pow2(n.bits), n.bits - n.prefix);
  }

  /** Any two networks are nested or disjoint: the longer prefix lies inside the shorter or outside it. */
  lemma NestedOrDisjoint(a: Cidr, b: Cidr)
    requires a.Valid() && b.Valid()
    ensures Within(a, b) || Within(b, a) || Disjoint(a, b)
    ensures a.bits == b.bits && a.prefix >= b.prefix ==> Within(a, b) || Disjoint(a, b)
  {
    if a.bits == b.bits && a.prefix >= b.prefix {
      FinerNested(a, b);
    } else if a.bits == b.bits {
      FinerNested(b, a);
    }
  }

  lemma FinerNested(a: Cidr, b: Cidr)
    requires a.Valid() && b.Valid() && a.bits == b.bits && a.prefix >= b.prefix
    ensures Within(a, b) || Disjoint(a, b)
  {
    var h, k := a.bits - a.prefix, b.bits - b.prefix;
    LowCoarser(b.base, h, k);
    LowOfPow2(h, k);
    LowOfSum(b.base, Pow2(k), h);
    if a.base < b.base {
      AlignedApart(a.base, b.base, h);
    } else if a.base < b.base + b.Size() {
      AlignedApart(a.base, b.base + b.Size(), h);
    }
  }

  lemma OverlapIsNotDisjoint(a: Cidr, b: Cidr)
    requires a.Valid() && b.Valid()
    ensures Overlap(a, b) <==> !Disjoint(a, b)
  {
    ContainsIsInterval(a, Address(b.bits, b.base));
    ContainsIsInterval(b, Address(a.bits, a.base));
  }

  /** Overlap answers exactly whether the two networks share an address. */
  lemma OverlapIffSharedAddress(a: Cidr, b: Cidr)
    requires a.Valid() && b.Valid()
    ensures Overlap(a, b) <==> exists x: Address :: x.Valid() && Contains(a, x) && Contains(b, x)
  {
    OverlapIsNotDisjoint(a, b);
    if Overlap(a, b) {
      var x := if Contains(a, Address(b.bits, b.base)) then Address(b.bits, b.base) else Address(a.bits, a.base);
      ContainsIsInterval(a, x);
      ContainsIsInterval(b, x);
      assert x.Valid() && Contains(a, x) && Contains(b, x);
    }
    forall x: Address | x.Valid() && Contains(a, x) && Contains(b, x)
      ensures Overlap(a, b)
    {
      ContainsIsInterval(a, x);
      ContainsIsInterval(b, x);
    }
  }

  /** The loop of OverLapAny; its answer is "nw shares an address with the union of the others". */
  method OverLapAny(nw: Cidr, otherNws: seq<Cidr>) returns (r: bool)
    requires nw.Valid() && AllValid(otherNws)
    ensures r == OverlapsAny(nw, otherNws)
    ensures r <==> exists x: Address :: x.Valid() && Contains(nw, x) && exists o <- otherNws :: Contains(o, x)
  {
    for i := 0 to |otherNws|
      invariant forall k :: 0 <= k < i ==> !Overlap(nw, otherNws[k])
    {
      OverlapIffSharedAddress(nw, otherNws[i]);
      if Overlap(nw, otherNws[i]) {
        return true;
      }
    }
    forall o <- otherNws
      ensures !exists x: Address :: x.Valid() && Contains(nw, x) && Contains(o, x)
    {
      OverlapIffSharedAddress(nw, o);
    }
    return false;
  }

  predicate OverlapsAny(nw: Cidr, otherNws: seq<Cidr>) {
    exists o <- otherNws :: Overlap(nw, o)
  }

  /** The IPv4 networks, in order. */
  function IPv4Only(ns: seq<Cidr>): (r: seq<Cidr>)
    ensures forall n :: n in r <==> n in ns && n.IsIPv4()
  {
    if ns == [] then [] else (if ns[0].IsIPv4() then [ns[0]] else []) + IPv4Only(ns[1..])
  }

  /** The others, in order. */
  function IPv6Only(ns: seq<Cidr>): (r: seq<Cidr>)
    ensures forall n :: n in r <==> n in ns && !n.IsIPv4()
  {
    if ns == [] then [] else (if ns[0].IsIPv4() then [] else [ns[0]]) + IPv6Only(ns[1..])
  }

  /** Filtering commutes with concatenation: order and multiplicity are kept. */
  lemma FamilyConcat(a: seq<Cidr>, b: seq<Cidr>)
    ensures IPv4Only(a + b) == IPv4Only(a) + IPv4Only(b)
    ensures IPv6Only(a + b) == IPv6Only(a) + IPv6Only(b)
  {
    hide IPv4Only, IPv6Only;
    IPv4Concat(a, b);
    IPv6Concat(a, b);
  }

  lemma FamilyAppend(a: seq<Cidr>, n: Cidr)
    ensures IPv4Only(a + [n]) == IPv4Only(a) + if n.IsIPv4() then [n] else []
    ensures IPv6Only(a + [n]) == IPv6Only(a) + if n.IsIPv4() then [] else [n]
  {
    FamilyConcat(a, [n]);
    assert IPv4Only([n]) == (if n.IsIPv4() then [n] else []) && IPv6Only([n]) == (if n.IsIPv4() then [] else [n]);
  }

  lemma NoFamilies()
    ensures IPv4Only([]) == [] && IPv6Only([]) == []
  {
  }

  lemma {:induction false} IPv4Concat(a: seq<Cidr>, b: seq<Cidr>)
    ensures IPv4Only(a + b) == IPv4Only(a) + IPv4Only(b)
  {
    if a == [] {
      assert a + b == b;
    } else {
      assert (a + b)[1..] == a[1..] + b;
      IPv4Concat(a[1..], b);
    }
  }

  lemma {:induction false} IPv6Concat(a: seq<Cidr>, b: seq<Cidr>)
    ensures IPv6Only(a + b) == IPv6Only(a) + IPv6Only(b)
  {
    if a == [] {
      assert a + b == b;
    } else {
      assert (a + b)[1..] == a[1..] + b;
      IPv6Concat(a[1..], b);
    }
  }

  /** The two lists together are the whole list, each network as often as it occurs there. */
  lemma {:induction false} FamiliesPartition(ns: seq<Cidr>)
    ensures multiset(IPv4Only(ns)) + multiset(IPv6Only(ns)) == multiset(ns)
  {
    if ns != [] {
      FamiliesPartition(ns[1..]);
      assert ns == [ns[0]] + ns[1..];
    }
  }

  method GetByIPFamily(cidrs: seq<Cidr>, ipv4: bool) returns (result: seq<Cidr>)
    ensures result == if ipv4 then IPv4Only(cidrs) else IPv6Only(cidrs)
  {
    hide IPv4Only, IPv6Only;
    NoFamilies();
    result := [];
    for i := 0 to |cidrs|
      invariant result == if ipv4 then IPv4Only(cidrs[..i]) else IPv6Only(cidrs[..i])
    {
      assert cidrs[..i + 1] == cidrs[..i] + [cidrs[i]];
      FamilyAppend(cidrs[..i], cidrs[i]);
      if cidrs[i].IsIPv4() == ipv4 {
        result := result + [cidrs[i]];
      }
    }
    assert cidrs[..|cidrs|] == cidrs;
  }
}
