/** The IPv6 address plan of the HA VPN (pkg/network/ip.go). All its prefixes end on byte boundaries, so a
    network is a leading run of bytes. */
module AddressPlan {

  type byte = b: int | 0 <= b < 256

  type Ip6 = ip: seq<byte> | |ip| == 16 witness seq(16, _ => 0)

  const BOND_START_SEED: byte := 0xa
  const BOND_START_SHOOT: byte := 0xb

  /** Membership in the network of the first prefixBytes bytes of net. */
  predicate InPrefix(ip: Ip6, net: Ip6, prefixBytes: nat)
    requires prefixBytes <= 16
  {
    ip[..prefixBytes] == net[..prefixBytes]
  }

  /** A VPN network as configuration accepts it: a masked /96. */
  predicate IsVpnNetwork(net: Ip6) {
    net[12..] == [0, 0, 0, 0]
  }

  /** The low byte of an int, as byte(index & 0xFF) takes it, also for negative values. */
  function LowByte(index: int): byte {
    index % 256
  }

  method BondingShootClientIP(vpnNetwork: Ip6, index: int) returns (ip: Ip6)
    ensures ip == vpnNetwork[..13] + [0xb, 0, LowByte(index)]
  {
    ip := vpnNetwork;
    ip := ip[15 := LowByte(index)];
    ip := ip[14 := 0];
    ip := ip[13 := BOND_START_SHOOT];
  }

  method AllBondingShootClientIPs(vpnNetwork: Ip6, haVPNClients: nat) returns (ips: seq<Ip6>)
    ensures |ips| == haVPNClients
    ensures forall i :: 0 <= i < haVPNClients ==> ips[i] == ShootClient(vpnNetwork, i)
  {
    ips := [];
    for i := 0 to haVPNClients
      invariant |ips| == i
      invariant forall k :: 0 <= k < i ==> ips[k] == ShootClient(vpnNetwork, k)
    {
      var ip := BondingShootClientIP(vpnNetwork, i);
      ips := ips + [ip];
    }
  }

  method BondingSeedClientRange(vpnNetworkIP: Ip6) returns (base: Ip6, startIndex: nat, endIndex: nat)
    ensures base == vpnNetworkIP[..13] + [0xa, 0, 0]
    ensures startIndex == 1 && endIndex == 0xffff
  {
    base := vpnNetworkIP;
    base := base[15 := 0];
    base := base[14 := 0];
    base := base[13 := BOND_START_SEED];
    startIndex, endIndex := 1, 0xffff;
  }

  method HAVPNTunnelNetwork(vpnNetworkIP: Ip6, vpnIndex: int) returns (base: Ip6, ones: nat)
    ensures base == vpnNetworkIP[..12] + [1, LowByte(vpnIndex), 0, 0] && ones == 112
  {
    base := vpnNetworkIP;
    base := base[15 := 0];
    base := base[14 := 0];
    base := base[13 := LowByte(vpnIndex)];
    base := base[12 := 1];
    ones := 112;
  }

  function ShootClient(net: Ip6, index: int): Ip6 {
    net[..13] + [BOND_START_SHOOT, 0, LowByte(index)]
  }

  function SeedBase(net: Ip6): Ip6 {
    net[..13] + [BOND_START_SEED, 0, 0]
  }

  function TunnelBase(net: Ip6, vpnIndex: int): Ip6 {
    net[..12] + [1, LowByte(vpnIndex), 0, 0]
  }

  function ClientIndexFromBondingShootClientIP(clientIP: Ip6): int {
    clientIP[|clientIP| - 1]
  }

  /** The address the broker forms for a pool index: one byte, or two once the range needs them. */
  function PoolAddress(base: Ip6, index: nat, endIndex: nat): Ip6 {
    var ip := base[15 := LowByte(index)];
    if endIndex > 0xff then ip[14 := LowByte(index / 256)] else ip
  }

  /** The low end of the address reads as the index, in two bytes or one; the rest is the base. */
  lemma PoolAddressReads(base: Ip6, index: nat, endIndex: nat)
    requires index <= endIndex <= 0xffff
    ensures var ip := PoolAddress(base, index, endIndex);
            if endIndex > 0xff then ip[14] as int * 256 + ip[15] as int == index && ip[..14] == base[..14]
            else ip[15] == index && ip[..15] == base[..15]
  {
  }

  /** Different indices of a range give different addresses, in the one-byte and the two-byte form alike. */
  lemma PoolAddressInjective(base: Ip6, endIndex: nat, i: nat, j: nat)
    requires i <= endIndex && j <= endIndex && endIndex <= 0xffff
    requires PoolAddress(base, i, endIndex) == PoolAddress(base, j, endIndex)
    ensures i == j
  {
    var a, b := PoolAddress(base, i, endIndex), PoolAddress(base, j, endIndex);
    assert a[15] == i % 256 && b[15] == j % 256;
    if endIndex > 0xff {
      assert a[14] == (i / 256) % 256 && b[14] == (j / 256) % 256;
    }
  }

  /** The client index survives the trip through the address exactly below 256. */
  lemma ClientIndexRoundTripIff(net: Ip6, index: int)
    ensures ClientIndexFromBondingShootClientIP(ShootClient(net, index)) == index <==> 0 <= index < 256
  {
    assert ShootClient(net, index)[15] == index % 256;
  }

  /** Shoot clients have pairwise different addresses exactly when there are at most 256 of them. */
  lemma ShootClientsDistinctIff(net: Ip6, haVPNClients: nat)
    ensures (forall i, j :: 0 <= i < j < haVPNClients ==> ShootClient(net, i) != ShootClient(net, j))
            <==> haVPNClients <= 256
  {
    if haVPNClients <= 256 {
      forall i, j | 0 <= i < j < haVPNClients ensures ShootClient(net, i) != ShootClient(net, j) {
        ClientIndexRoundTripIff(net, i);
        ClientIndexRoundTripIff(net, j);
      }
    } else {
      assert ShootClient(net, 0) == ShootClient(net, 256);
    }
  }

  /** The three kinds of addresses never meet: seed clients, shoot clients and the tunnel networks of the VPN
      servers are pairwise disjoint parts of the VPN network, and only the clients lie in the bond's /104. */
  lemma PlanIsDisjoint(net: Ip6, s: nat, endIndex: nat, c: int, v: int, inTunnel: Ip6)
    requires IsVpnNetwork(net) && s <= endIndex <= 0xffff
    requires InPrefix(inTunnel, TunnelBase(net, v), 14)
    ensures var seed, shoot := PoolAddress(SeedBase(net), s, endIndex), ShootClient(net, c);
            && seed != shoot && seed != inTunnel && shoot != inTunnel
            && InPrefix(seed, net, 12) && InPrefix(shoot, net, 12) && InPrefix(inTunnel, net, 12)
            && InPrefix(seed, SeedBase(net), 14)
            && InPrefix(seed, net, 13) && InPrefix(shoot, net, 13) && !InPrefix(inTunnel, net, 13)
  {
    var seed, shoot := PoolAddress(SeedBase(net), s, endIndex), ShootClient(net, c);
    assert net[12] == net[12..][0] == 0;
    assert inTunnel[12] == inTunnel[..14][12] == TunnelBase(net, v)[..14][12] == 1;
    assert inTunnel[..12] == inTunnel[..14][..12] == TunnelBase(net, v)[..14][..12] == net[..12];
    assert inTunnel[..13][12] == 1 && net[..13][12] == 0;
    assert seed[13] == BOND_START_SEED && shoot[13] == BOND_START_SHOOT && seed[12] == shoot[12] == 0;
    assert seed[..13] == net[..13] && shoot[..13] == net[..13];
    assert seed[..12] == seed[..13][..12] && shoot[..12] == shoot[..13][..12] && net[..13][..12] == net[..12];
  }

  /** Tunnel networks of different VPN indices below 256 share no address. */
  lemma TunnelsAreDisjoint(net: Ip6, v: int, w: int, ip: Ip6)
    requires 0 <= v < 256 && 0 <= w < 256
    requires InPrefix(ip, TunnelBase(net, v), 14) && InPrefix(ip, TunnelBase(net, w), 14)
    ensures v == w
  {
    assert ip[..14][13] == TunnelBase(net, v)[..14][13] == v;
    assert ip[..14][13] == TunnelBase(net, w)[..14][13] == w;
  }
}
