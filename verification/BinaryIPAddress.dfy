/** BinaryIPAddress: masks, networks and address ranges on the sixteen bytes of an address. */
module BinaryIPAddressModel {
  import opened Basics

  datatype Family = Unspecified | IPv4 | IPv6

  type Bytes16 = s: seq<bv8> | |s| == 16 witness [0, 0, 0, 0, 0, 0, 0, 0, 0, 0, 0, 0, 0, 0, 0, 0]

  datatype Address = Address(family: Family, bytes: Bytes16)

  function NumBytes(f: Family): nat { match f case IPv4 => 4 case IPv6 => 16 case Unspecified => 0 }

  // The bytes an IPv4 address does not use are zero
  predicate Ok(a: Address) {
    a.family != Unspecified && forall i :: NumBytes(a.family) <= i < 16 ==> a.bytes[i] == 0
  }

  // ---------------------------------------------------------------- the operators

  // The 64-bit words that the operators work on: one for IPv4, two for IPv6
  function WordBytes(f: Family): nat { match f case IPv4 => 8 case IPv6 => 16 case Unspecified => 0 }

  function And(a: Address, b: Address): Address {
    a.(bytes := seq(16, i requires 0 <= i < 16 => if i < WordBytes(a.family) then a.bytes[i] & b.bytes[i] else a.bytes[i]))
  }

  function Or(a: Address, b: Address): Address {
    a.(bytes := seq(16, i requires 0 <= i < 16 => if i < WordBytes(a.family) then a.bytes[i] | b.bytes[i] else a.bytes[i]))
  }

  // For IPv4 the upper half of the word is masked away
  function Not(a: Address): Address {
    a.(bytes := seq(16, i requires 0 <= i < 16 =>
      if i < NumBytes(a.family) then !a.bytes[i] else if i < WordBytes(a.family) then 0 else a.bytes[i]))
  }

  // ---------------------------------------------------------------- masks

  // 0xff << (8 - r) within a byte
  function High(r: nat): bv8
    requires r <= 8
  {
    if r == 0 then 0 else if r == 1 then 0x80 else if r == 2 then 0xc0 else if r == 3 then 0xe0 else if r == 4 then 0xf0
    else if r == 5 then 0xf8 else if r == 6 then 0xfc else if r == 7 then 0xfe else 0xff
  }

  // Byte i of a mask of c leading ones
  function MaskByte(c: nat, i: nat): bv8 {
    if c <= 8 * i then 0 else if c >= 8 * i + 8 then 0xff else High(c - 8 * i)
  }

  function MaskOf(f: Family, c: nat): Address { Address(f, seq(16, i requires 0 <= i < 16 => MaskByte(c, i))) }

  method CreateMask(af: Family, cidr_lbits: nat) returns (ok: bool, mask: Address)
    ensures ok <==> af != Unspecified && cidr_lbits <= 8 * NumBytes(af)
    ensures ok ==> mask == MaskOf(af, cidr_lbits) && Ok(mask)
  {
    mask := Address(Unspecified, [0, 0, 0, 0, 0, 0, 0, 0, 0, 0, 0, 0, 0, 0, 0, 0]);
    if af.Unspecified? || (af.IPv4? && cidr_lbits > 32) || cidr_lbits > 128 {
      return false, mask;
    }
    var bytes := new bv8[16](_ => 0);
    var r := cidr_lbits % 8;
    var n := (cidr_lbits - r) / 8;
    var x := 0;
    while x < n
      invariant 0 <= x <= n <= 16
      invariant forall i :: 0 <= i < 16 ==> bytes[i] == if i < x then 0xff else 0
    {
      bytes[x] := 0xff;
      x := x + 1;
    }
    if r > 0 {
      bytes[n] := High(r);
    }
    assert cidr_lbits == 8 * n + r;
    forall i | 0 <= i < 16 ensures bytes[i] == MaskByte(cidr_lbits, i) {
    }
    ok, mask := true, Address(af, bytes[..]);
    assert mask.bytes == MaskOf(af, cidr_lbits).bytes;
  }

  // The case labels of IsMask
  predicate LeadingOnes(b: bv8) {
    b == 0 || b == 0x80 || b == 0xc0 || b == 0xe0 || b == 0xf0 || b == 0xf8 || b == 0xfc || b == 0xfe || b == 0xff
  }

  function OnesIn(b: bv8): (r: nat)
    requires LeadingOnes(b)
    ensures r <= 8 && High(r) == b
  {
    if b == 0 then 0 else if b == 0x80 then 1 else if b == 0xc0 then 2 else if b == 0xe0 then 3 else if b == 0xf0 then 4
    else if b == 0xf8 then 5 else if b == 0xfc then 6 else if b == 0xfe then 7 else 8
  }

  predicate LooksLike(a: Address, c: nat, upto: nat)
    requires upto <= 16
  {
    forall i :: 0 <= i < upto ==> a.bytes[i] == MaskByte(c, i)
  }

  /** IsMask accepts exactly the masks: some number of ones and then zeros. */
  method IsMask(a: Address) returns (ok: bool)
    ensures ok <==> a.family != Unspecified && exists c: nat :: c <= 8 * NumBytes(a.family) && LooksLike(a, c, NumBytes(a.family))
  {
    var numbytes := NumBytes(a.family);
    if numbytes == 0 {
      return false;
    }
    var on := true;
    ghost var c: nat, p: nat := 0, 0;
    var x: nat := 0;
    while x < numbytes
      invariant x <= numbytes && c <= 8 * x && LooksLike(a, c, x)
      invariant on ==> c == 8 * x
      invariant !on ==> p < x && a.bytes[p] != 0xff
    {
      var b := a.bytes[x];
      if on {
        if !LeadingOnes(b) {
          forall d: nat ensures LeadingOnes(MaskByte(d, x)) {
          }
          return false;
        }
        if b != 0xff {
          on := false;
          p := x;
        }
        c := c + OnesIn(b);
        assert MaskByte(c, x) == b;
        assert forall i :: 0 <= i < x ==> MaskByte(c, i) == 0xff;
      } else if b != 0 {
        forall d: nat ensures MaskByte(d, p) != 0xff ==> MaskByte(d, x) == 0 {
        }
        return false;
      }
      x := x + 1;
    }
    ok := true;
  }

  // ---------------------------------------------------------------- networks

  // Bit j of a byte, the highest first
  predicate BitOf(b: bv8, j: nat)
    requires j < 8
  {
    if j == 0 then b & 0x80 != 0 else if j == 1 then b & 0x40 != 0 else if j == 2 then b & 0x20 != 0 else if j == 3 then b & 0x10 != 0
    else if j == 4 then b & 0x08 != 0 else if j == 5 then b & 0x04 != 0 else if j == 6 then b & 0x02 != 0 else b & 0x01 != 0
  }

  // Bit k of an address, the first being the most significant
  predicate Bit(a: Address, k: nat)
    requires k < 128
  {
    BitOf(a.bytes[k / 8], k % 8)
  }

  predicate SameBit(a: Address, b: Address, k: nat)
    requires k < 128
  {
    Bit(a, k) == Bit(b, k)
  }

  predicate SamePrefix(a: Address, b: Address, c: nat)
    requires c <= 128
  {
    forall k :: 0 <= k < c ==> SameBit(a, b, k)
  }

  method GetNetwork(a: Address, cidr_lbits: nat) returns (ok: bool, network: Address)
    ensures ok <==> a.family != Unspecified && cidr_lbits <= 8 * NumBytes(a.family)
    ensures ok ==> network == And(a, MaskOf(a.family, cidr_lbits))
  {
    var mask;
    ok, mask := CreateMask(a.family, cidr_lbits);
    network := if ok then And(a, mask) else a;
  }

  // The bytes that the operators leave alone; an IPv4 address has none of them set
  predicate SameTail(a: Address, b: Address) {
    forall i :: WordBytes(a.family) <= i < 16 ==> a.bytes[i] == b.bytes[i]
  }

  /** Two addresses of one family are in the same network exactly when they agree in the
      first bits (section 3.1 of RFC 4632), and in the bytes that no IPv4 address has; of two
      families, never. */
  method AreInSameNetwork(a: Address, b: Address, cidr_lbits: nat) returns (ok: bool, same: bool)
    ensures ok <==> a.family != b.family || (a.family != Unspecified && cidr_lbits <= 8 * NumBytes(a.family))
    ensures same <==>
              && a.family == b.family != Unspecified && cidr_lbits <= 8 * NumBytes(a.family)
              && SamePrefix(a, b, cidr_lbits) && SameTail(a, b)
    ensures Ok(a) && Ok(b) ==> (same <==> a.family == b.family && cidr_lbits <= 8 * NumBytes(a.family) && SamePrefix(a, b, cidr_lbits))
  {
    if a.family == b.family {
      var ok1, network1 := GetNetwork(a, cidr_lbits);
      var ok2, network2 := GetNetwork(b, cidr_lbits);
      if ok1 && ok2 {
        NetworkIsPrefix(a, b, cidr_lbits);
        return true, network1 == network2;
      }
      return false, false;
    }
    return true, false;
  }

  lemma ByteBits(x: bv8, y: bv8, r: nat)
    requires r <= 8
    ensures x & High(r) == y & High(r) <==> forall j :: 0 <= j < r ==> BitOf(x, j) == BitOf(y, j)
  {
    if r > 0 {
      ByteBits(x, y, r - 1);
      OneMoreBit(x, y, r);
      if forall j :: 0 <= j < r - 1 ==> BitOf(x, j) == BitOf(y, j) {
        assert BitOf(x, r - 1) == BitOf(y, r - 1) ==> forall j :: 0 <= j < r ==> BitOf(x, j) == BitOf(y, j);
      }
    }
  }

  lemma OneMoreBit(x: bv8, y: bv8, r: nat)
    requires 0 < r <= 8
    ensures x & High(r) == y & High(r) <==> x & High(r - 1) == y & High(r - 1) && BitOf(x, r - 1) == BitOf(y, r - 1)
  {
  }

  // Masking works byte by byte, also where an IPv4 address has no bytes
  lemma AndAt(a: Address, c: nat, i: nat)
    requires Ok(a) && i < 16
    ensures And(a, MaskOf(a.family, c)).bytes[i] == a.bytes[i] & MaskByte(c, i)
  {
    if i >= WordBytes(a.family) { assert a.bytes[i] == 0; }
  }

  lemma AndInWord(a: Address, c: nat, i: nat)
    requires i < 16
    ensures And(a, MaskOf(a.family, c)).bytes[i] ==
              if i < WordBytes(a.family) then a.bytes[i] & MaskByte(c, i) else a.bytes[i]
  {
  }

  // Equality under a mask, byte by byte
  predicate SameBytes(a: Address, b: Address, c: nat, i: nat)
    requires i < 16
  {
    a.bytes[i] & MaskByte(c, i) == b.bytes[i] & MaskByte(c, i)
  }

  lemma NetworkBytes(a: Address, b: Address, c: nat)
    requires a.family == b.family
    ensures And(a, MaskOf(a.family, c)) == And(b, MaskOf(a.family, c)) <==>
              SameTail(a, b) && forall i :: 0 <= i < WordBytes(a.family) ==> SameBytes(a, b, c, i)
  {
    var m, n := MaskOf(a.family, c), WordBytes(a.family);
    var x, y := And(a, m).bytes, And(b, m).bytes;
    forall i | 0 <= i < 16 ensures x[i] == y[i] <==> if i < n then SameBytes(a, b, c, i) else a.bytes[i] == b.bytes[i] {
      AndInWord(a, c, i);
      AndInWord(b, c, i);
    }
    if SameTail(a, b) && forall i :: 0 <= i < n ==> SameBytes(a, b, c, i) { assert x == y; }
    if x == y { assert forall i :: 0 <= i < 16 ==> x[i] == y[i]; }
  }

  function Within(c: nat, i: nat): (r: nat)
    ensures r <= 8 && MaskByte(c, i) == High(r)
  {
    if c <= 8 * i then 0 else if c >= 8 * i + 8 then 8 else c - 8 * i
  }

  lemma SameBytesIff(a: Address, b: Address, c: nat, i: nat)
    requires i < 16
    ensures SameBytes(a, b, c, i) <==> forall k :: 8 * i <= k < 8 * i + Within(c, i) ==> SameBit(a, b, k)
  {
    var x, y, r := a.bytes[i], b.bytes[i], Within(c, i);
    ByteBits(x, y, r);
    forall k | 8 * i <= k < 8 * i + 8 ensures SameBit(a, b, k) <==> BitOf(x, k - 8 * i) == BitOf(y, k - 8 * i) {
      assert k / 8 == i && k % 8 == k - 8 * i;
    }
    if forall k :: 8 * i <= k < 8 * i + r ==> SameBit(a, b, k) {
      forall j | 0 <= j < r ensures BitOf(x, j) == BitOf(y, j) { assert SameBit(a, b, 8 * i + j); }
    }
  }

  lemma NetworkIsPrefix(a: Address, b: Address, c: nat)
    requires a.family == b.family && c <= 8 * NumBytes(a.family)
    ensures And(a, MaskOf(a.family, c)) == And(b, MaskOf(a.family, c)) <==> SamePrefix(a, b, c) && SameTail(a, b)
  {
    NetworkBytes(a, b, c);
    if forall i :: 0 <= i < WordBytes(a.family) ==> SameBytes(a, b, c, i) {
      forall k | 0 <= k < c ensures SameBit(a, b, k) {
        assert SameBytes(a, b, c, k / 8);
        SameBytesIff(a, b, c, k / 8);
      }
    }
    if SamePrefix(a, b, c) {
      forall i | 0 <= i < WordBytes(a.family) ensures SameBytes(a, b, c, i) {
        SameBytesIff(a, b, c, i);
      }
    }
  }

  /** So addresses in the same network are in the same network for every shorter prefix. */
  lemma ShorterPrefix(a: Address, b: Address, k: nat, j: nat)
    requires a.family == b.family && j <= k <= 8 * NumBytes(a.family)
    ensures And(a, MaskOf(a.family, k)) == And(b, MaskOf(a.family, k)) ==> And(a, MaskOf(a.family, j)) == And(b, MaskOf(a.family, j))
  {
    NetworkIsPrefix(a, b, k);
    NetworkIsPrefix(a, b, j);
  }

  // ---------------------------------------------------------------- ranges

  function GetAddressRange(a: Address, mask: Address): Option<(Address, Address)> {
    if a.family == mask.family then Some((a, Or(a, Not(mask)))) else None
  }

  predicate InRange(a: Address, first: Address, last: Address, upto: nat)
    requires upto <= 16
  {
    forall i :: 0 <= i < upto ==> first.bytes[i] <= a.bytes[i] <= last.bytes[i]
  }

  method IsInAddressRange(a: Address, first: Address, last: Address) returns (ok: bool, inside: bool)
    ensures ok <==> a.family == first.family == last.family && a.family != Unspecified
    ensures inside <==> ok && InRange(a, first, last, NumBytes(a.family))
  {
    if a.family == first.family && a.family == last.family {
      var numbytes := NumBytes(a.family);
      if numbytes > 0 {
        var x := 0;
        while x < numbytes
          invariant x <= numbytes && InRange(a, first, last, x)
        {
          var b := a.bytes[x];
          if !(b >= first.bytes[x] && b <= last.bytes[x]) {
            return true, false;
          }
          x := x + 1;
        }
        return true, true;
      }
    }
    return false, false;
  }

  // One byte of a network: between the network's byte and its complement-filled end
  lemma ByteRange(x: bv8, s: bv8, r: nat)
    requires r <= 8 && s & High(r) == s
    ensures s <= x <= s | !High(r) <==> x & High(r) == s
  {
    if r == 0 {
    } else if r <= 4 {
    } else {
    }
  }

  // A byte with bits outside the mask starts above its network
  lemma ByteBelow(s: bv8, r: nat)
    requires r <= 8 && s & High(r) != s
    ensures !(s <= s & High(r))
  {
  }

  // The address, in the bytes its family has, is the address of a network
  predicate IsNetwork(a: Address, c: nat) { forall i :: 0 <= i < NumBytes(a.family) ==> ByteIsNetwork(a, c, i) }

  predicate ByteIsNetwork(a: Address, c: nat, i: nat)
    requires i < 16
  {
    a.bytes[i] & MaskByte(c, i) == a.bytes[i]
  }

  /** For a mask of the start's family: being in the address range is the same as having its
      network, for every address, exactly when the range starts at a network address. The
      range check does not look at the bytes an IPv4 address does not have. */
  lemma RangeIsNetworkIff(start: Address, c: nat)
    requires c <= 8 * NumBytes(start.family)
    ensures var m := MaskOf(start.family, c);
      var (first, last) := GetAddressRange(start, m).value;
      (forall a: Address :: a.family == start.family ==>
         (InRange(a, first, last, NumBytes(a.family)) && SameTail(a, start) <==> And(a, m) == And(start, m)))
      <==> IsNetwork(start, c)
  {
    var m := MaskOf(start.family, c);
    if IsNetwork(start, c) {
      forall a: Address | a.family == start.family
        ensures InRange(a, start, Or(start, Not(m)), NumBytes(a.family)) && SameTail(a, start) <==> And(a, m) == And(start, m)
      {
        RangeIsNetwork(a, start, c);
      }
    } else {
      RangeMissesItsStart(start, c);
    }
  }

  /** Where no byte is out of use, or all that are hold zero, that says it in full. */
  lemma NetworkOfItself(a: Address, c: nat)
    requires Ok(a)
    ensures IsNetwork(a, c) <==> And(a, MaskOf(a.family, c)) == a
    ensures forall b: Address :: Ok(b) && b.family == a.family ==> SameTail(a, b)
  {
    var network := And(a, MaskOf(a.family, c)).bytes;
    forall i | 0 <= i < 16 ensures network[i] == a.bytes[i] & MaskByte(c, i) { AndAt(a, c, i); }
    if IsNetwork(a, c) {
      forall i | 0 <= i < 16 ensures network[i] == a.bytes[i] {
        if i < NumBytes(a.family) { assert ByteIsNetwork(a, c, i); } else { assert a.bytes[i] == 0; }
      }
      assert network == a.bytes;
    }
  }

  lemma OrNotAt(a: Address, c: nat, i: nat)
    requires i < NumBytes(a.family)
    ensures Or(a, Not(MaskOf(a.family, c))).bytes[i] == a.bytes[i] | !MaskByte(c, i)
  {
    var n := Not(MaskOf(a.family, c));
    assert i < WordBytes(a.family);
    assert n.bytes[i] == !MaskByte(c, i);
    assert Or(a, n).bytes[i] == a.bytes[i] | n.bytes[i];
  }

  lemma NamedByteRange(x: bv8, s: bv8, mask: bv8, last: bv8, network: bv8, r: nat)
    requires r <= 8 && mask == High(r) && s & mask == s && last == s | !mask && network == x & mask
    ensures s <= x <= last <==> network == s
  {
    ByteRange(x, s, r);
  }

  predicate ByteAgrees(x: bv8, s: bv8, last: bv8, network: bv8) { s <= x <= last <==> network == s }

  lemma RangeBytes(x: Bytes16, s: Bytes16, last: Bytes16, network: Bytes16, n: nat)
    requires n <= 16 && forall i :: 0 <= i < n ==> ByteAgrees(x[i], s[i], last[i], network[i])
    ensures (forall i :: 0 <= i < n ==> s[i] <= x[i] <= last[i]) <==> (forall i :: 0 <= i < n ==> network[i] == s[i])
  {
  }

  predicate BytesFit(x: bv8, s: bv8, last: bv8, network: bv8, c: nat, i: nat) {
    s & MaskByte(c, i) == s && last == s | !MaskByte(c, i) && network == x & MaskByte(c, i)
  }

  lemma FitAgrees(x: bv8, s: bv8, last: bv8, network: bv8, c: nat, i: nat)
    requires BytesFit(x, s, last, network, c, i)
    ensures ByteAgrees(x, s, last, network)
  {
    NamedByteRange(x, s, MaskByte(c, i), last, network, Within(c, i));
  }

  lemma RangeByteFits(a: Address, start: Address, c: nat, i: nat)
    requires a.family == start.family && i < NumBytes(a.family) && ByteIsNetwork(start, c, i)
    ensures var m := MaskOf(start.family, c);
      BytesFit(a.bytes[i], start.bytes[i], Or(start, Not(m)).bytes[i], And(a, m).bytes[i], c, i)
  {
    AndInWord(a, c, i);
    OrNotAt(start, c, i);
  }

  // The rest of the bytes under a mask: none of a word's, and those beyond it as they are
  lemma RestUnderMask(a: Address, start: Address, c: nat)
    requires a.family == start.family && c <= 8 * NumBytes(a.family)
    ensures var m, n := MaskOf(a.family, c), NumBytes(a.family);
      SameTail(a, start) <==> forall i :: n <= i < 16 ==> And(a, m).bytes[i] == And(start, m).bytes[i]
  {
    var m, n := MaskOf(a.family, c), NumBytes(a.family);
    forall i | n <= i < 16
      ensures And(a, m).bytes[i] == And(start, m).bytes[i] <==> (i < WordBytes(a.family) || a.bytes[i] == start.bytes[i])
    {
      AndInWord(a, c, i);
      AndInWord(start, c, i);
    }
  }

  lemma RangeIsNetwork(a: Address, start: Address, c: nat)
    requires a.family == start.family && c <= 8 * NumBytes(start.family) && IsNetwork(start, c)
    ensures var m := MaskOf(start.family, c);
      InRange(a, start, Or(start, Not(m)), NumBytes(a.family)) && SameTail(a, start) <==> And(a, m) == And(start, m)
  {
    var m, n := MaskOf(start.family, c), NumBytes(a.family);
    var x, y, last := And(a, m).bytes, And(start, m).bytes, Or(start, Not(m)).bytes;
    forall i | 0 <= i < n ensures ByteAgrees(a.bytes[i], start.bytes[i], last[i], x[i]) && y[i] == start.bytes[i] {
      assert ByteIsNetwork(start, c, i);
      AndInWord(start, c, i);
      RangeByteFits(a, start, c, i);
      FitAgrees(a.bytes[i], start.bytes[i], last[i], x[i], c, i);
    }
    RangeBytes(a.bytes, start.bytes, last, x, n);
    RestUnderMask(a, start, c);
    SplitEqual(x, y, n);
  }

  lemma SplitEqual(x: Bytes16, y: Bytes16, n: nat)
    requires n <= 16
    ensures x == y <==> (forall i :: 0 <= i < n ==> x[i] == y[i]) && (forall i :: n <= i < 16 ==> x[i] == y[i])
  {
  }

  // The network address itself is outside a range that starts above it
  lemma RangeMissesItsStart(start: Address, c: nat)
    requires c <= 8 * NumBytes(start.family) && !IsNetwork(start, c)
    ensures var m := MaskOf(start.family, c);
      && And(And(start, m), m) == And(start, m)
      && !InRange(And(start, m), start, Or(start, Not(m)), NumBytes(start.family))
  {
    var m := MaskOf(start.family, c);
    var network := And(start, m);
    assert And(network, m).bytes == network.bytes;
    var i :| 0 <= i < NumBytes(start.family) && !ByteIsNetwork(start, c, i);
    AndInWord(start, c, i);
    ByteBelow(start.bytes[i], Within(c, i));
  }
}
