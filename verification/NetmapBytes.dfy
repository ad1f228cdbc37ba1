/** netmapIP as it is written, on bytes and masks (pkg/network/netmap.go), and the number it computes. */
module NetmapBytes {
  import opened Bits
  import opened Cidrs
  import opened AddressPlan
  import opened Netmap

  type Ip4 = ip: seq<byte> | |ip| == 4 witness [0, 0, 0, 0]

  /** x & y and x | y on the n lowest bits. */
  function And(x: nat, y: nat, n: nat): nat {
    if n == 0 then 0 else 2 * And(x / 2, y / 2, n - 1) + if x % 2 == 1 && y % 2 == 1 then 1 else 0
  }

  function Or(x: nat, y: nat, n: nat): nat {
    if n == 0 then 0 else 2 * Or(x / 2, y / 2, n - 1) + if x % 2 == 1 || y % 2 == 1 then 1 else 0
  }

  lemma {:induction false} OpsFit(x: nat, y: nat, n: nat)
    ensures And(x, y, n) < Pow2(n) && Or(x, y, n) < Pow2(n)
  {
    if n > 0 {
      OpsFit(x / 2, y / 2, n - 1);
    }
  }

  function AndByte(x: byte, y: byte): byte {
    Pow2Values(); OpsFit(x, y, 8); And(x, y, 8)
  }

  function OrByte(x: byte, y: byte): byte {
    Pow2Values(); OpsFit(x, y, 8); Or(x, y, 8)
  }

  function NotByte(x: byte): byte {
    255 - x
  }

  /** The number a big-endian byte sequence stands for. */
  function Value(bytes: seq<byte>): nat {
    if bytes == [] then 0 else 256 * Value(bytes[..|bytes| - 1]) + bytes[|bytes| - 1]
  }

  function Least(a: nat, b: nat): nat {
    if a <= b then a else b
  }

  /** The bits left of h once a byte is taken off the end. */
  function Rest(h: nat): nat {
    if h > 8 then h - 8 else 0
  }

  /** The mask of n bytes whose last h bits are zero and whose other bits are one. */
  function MaskBytes(n: nat, h: nat): (m: seq<byte>)
    ensures |m| == n
  {
    if n == 0 then []
    else
      Pow2Values();
      Pow2Monotonic(Least(h, 8), 8);
      MaskBytes(n - 1, Rest(h)) + [256 - Pow2(Least(h, 8))]
  }

  function MapBytes(ip: seq<byte>, mask: seq<byte>, base: seq<byte>): seq<byte>
    requires |ip| == |mask| == |base|
  {
    seq(|ip|, i requires 0 <= i < |ip| => OrByte(AndByte(ip[i], NotByte(mask[i])), base[i]))
  }

  /** netmapIP. The arguments are the results of To4, absent for an address that is not IPv4. */
  method NetmapIP(ip: Option<Ip4>, mask: Ip4, subnetBase: Option<Ip4>) returns (r: Result<seq<byte>>)
    ensures r.Ok? <==> ip.Some? && subnetBase.Some?
    ensures r.Ok? ==> r.value == MapBytes(ip.value, mask, subnetBase.value)
    ensures r.Err? ==> r.error == OnlyIPv4
  {
    if ip.None? || subnetBase.None? {
      return Err(OnlyIPv4);
    }
    var mapped := new byte[4];
    for i := 0 to 4
      invariant forall k :: 0 <= k < i ==>
                  mapped[k] == OrByte(AndByte(ip.value[k], NotByte(mask[k])), subnetBase.value[k])
    {
      mapped[i] := OrByte(AndByte(ip.value[i], NotByte(mask[i])), subnetBase.value[i]);
    }
    return Ok(mapped[..]);
  }

  lemma {:induction false} AndOnes(x: nat, h: nat, n: nat)
    requires h <= n
    ensures And(x, Pow2(h) - 1, n) == Low(x, h)
  {
    if n > 0 {
      if h > 0 {
        AndOnes(x / 2, h - 1, n - 1);
      } else {
        AndOnes(x / 2, 0, n - 1);
      }
    }
  }

  lemma {:induction false} OrApart(x: nat, b: nat, h: nat, n: nat)
    requires x < Pow2(h) && Low(b, h) == 0 && b < Pow2(n) && h <= n
    ensures Or(x, b, n) == x + b
  {
    if n > 0 {
      OrApart(x / 2, b / 2, if h > 0 then h - 1 else 0, n - 1);
    }
  }

  /** One byte of netmapIP: the host bits of ip on the network bits of base. */
  lemma ByteStep(x: byte, b: byte, h: nat)
    requires h <= 8 && Low(b, h) == 0 && 0 <= 256 - Pow2(h) < 256
    ensures OrByte(AndByte(x, NotByte(256 - Pow2(h))), b) == b + Low(x, h)
  {
    hide Pow2, Low, Or, And;
    Pow2Values();
    AndOnes(x, h, 8);
    LowBound(x, h);
    OrApart(Low(x, h), b, h, 8);
  }

  /** The low bits of v with k bits appended. */
  lemma {:induction false} LowOfAppended(v: nat, b: nat, k: nat, h: nat)
    requires b < Pow2(k)
    ensures Low(ShiftLeft(v, k) + b, h) == if h <= k then Low(b, h) else ShiftLeft(Low(v, h - k), k) + b
  {
    if k > 0 && h > 0 {
      LowOfAppended(v, b / 2, k - 1, h - 1);
    }
  }

  lemma LowOfByteAppended(v: nat, b: byte, h: nat)
    ensures Low(256 * v + b, h) == 256 * Low(v, Rest(h)) + Low(b, Least(h, 8))
  {
    Pow2Values();
    LowOfAppended(v, b, 8, h);
    MultiplyIsShift(v, 8);
    if h > 8 {
      MultiplyIsShift(Low(v, h - 8), 8);
      LowOfSmall(b, 8);
    }
  }

  /** Masking and or-ing byte by byte adds the host part of the address to the base. */
  lemma {:induction false} MapBytesValue(ip: seq<byte>, base: seq<byte>, h: nat)
    requires |ip| == |base| && Low(Value(base), h) == 0
    ensures Value(MapBytes(ip, MaskBytes(|ip|, h), base)) == Value(base) + Low(Value(ip), h)
    decreases |ip|
  {
    hide Low, Pow2, OrByte, AndByte, Rest;
    if |ip| == 0 {
      LowBound(0, h);
    } else {
      var n := |ip| - 1;
      var mask := MaskBytes(n + 1, h);
      LowOfByteAppended(Value(base[..n]), base[n], h);
      LowOfByteAppended(Value(ip[..n]), ip[n], h);
      MapBytesValue(ip[..n], base[..n], Rest(h));
      MaskSplits(n, h);
      ByteStep(ip[n], base[n], Least(h, 8));
      assert MapBytes(ip, mask, base)[..n] == MapBytes(ip[..n], MaskBytes(n, Rest(h)), base[..n]);
    }
  }

  lemma MaskSplits(n: nat, h: nat)
    ensures MaskBytes(n + 1, h)[..n] == MaskBytes(n, Rest(h))
    ensures MaskBytes(n + 1, h)[n] == 256 - Pow2(Least(h, 8))
  {
  }

  /** netmapIP on bytes is NetmapAddress on numbers. */
  lemma BytesRefineAddress(ip: Ip4, base: Ip4, subnet: Cidr)
    requires subnet.Valid() && subnet.IsIPv4() && Value(base) == subnet.base
    ensures Value(MapBytes(ip, MaskBytes(4, subnet.HostBits()), base)) == NetmapAddress(Value(ip), subnet)
  {
    MapBytesValue(ip, base, subnet.HostBits());
  }
}
