/**
 The addresses webhooks are not sent to: everything that is not a public IPv4 address
 or global unicast IPv6 address.
 */
module WebhookAddress {
  import opened Common
  import opened Numerals
  import opened Texts
  import opened Ipv4Networks
  import opened Ipv6Text

  /** What net.isIP says of a text. */
  datatype Family = NoAddress | V4 | V6

  function Bits(octet: int): (b: bv32)
    requires 0 <= octet < 256
    ensures b < 256
  {
    (octet as bv8) as bv32
  }

  predicate OctetTexts(parts: seq<string>) {
    forall i :: 0 <= i < |parts| ==> OctetText(parts[i])
  }

  function OctetBits(parts: seq<string>): (bits: seq<bv32>)
    requires OctetTexts(parts)
    ensures |bits| == |parts|
  {
    seq(|parts|, i requires 0 <= i < |parts| && OctetText(parts[i]) => Bits(Value(parts[i])))
  }

  /** reduce((value, part) => append(value, part), 0) */
  function Fold(append: (bv32, bv32) -> bv32, bits: seq<bv32>): bv32 {
    if bits == [] then 0 else append(Fold(append, bits[..|bits| - 1]), bits[|bits| - 1])
  }

  function Ipv4ToNumber(address: string): bv32
    requires OctetTexts(Split(address, '.'))
  {
    Fold(AppendOctet, OctetBits(Split(address, '.')))
  }

  predicate IsBlockedIpv4(address: string)
    requires OctetTexts(Split(address, '.'))
  {
    IsBlockedValue(Ipv4ToNumber(address))
  }

  const TWO_32 := 0x1_0000_0000
  const TWO_96 := 0x1_0000_0000_0000_0000_0000_0000
  const TWO_105 := 512 * TWO_96
  const TWO_112 := 0x1_0000 * TWO_96
  const TWO_125 := 0x2000 * TWO_112

  /** The last 32 bits in dotted notation. */
  function MappedOctets(value: nat): (octets: seq<string>)
    ensures |octets| == 4
  {
    [Digits(value / 0x100_0000 % 256), Digits(value / 0x1_0000 % 256), Digits(value / 0x100 % 256),
     Digits(value % 256)]
  }

  lemma OctetDigits(n: nat)
    requires n < 256
    ensures OctetText(Digits(n)) && Value(Digits(n)) == n
  {
    ValueOfDigits(n);
  }

  lemma MappedQuad(value: nat)
    ensures QuadText(MappedOctets(value)) && Split(Join(MappedOctets(value), '.'), '.') == MappedOctets(value)
  {
    OctetDigits(value / 0x100_0000 % 256);
    OctetDigits(value / 0x1_0000 % 256);
    OctetDigits(value / 0x100 % 256);
    OctetDigits(value % 256);
    QuadHasDots(MappedOctets(value));
  }

  predicate IsBlockedIpv6(value: nat) {
    if value / TWO_32 == 0xffff then
      MappedQuad(value);
      IsBlockedIpv4(Join(MappedOctets(value), '.'))
    else
      var globalUnicast := value / TWO_125 == 1;
      var documentation := value / TWO_96 == 0x20010db8;
      var sixToFour := value / TWO_112 == 0x2002;
      var special2001 := value / TWO_105 == 0x100080;
      !globalUnicast || documentation || sixToFour || special2001
  }

  /** The texts that net.isIP takes for addresses of the family. */
  predicate IsOf(family: Family, address: string) {
    match family
    case NoAddress => true
    case V4 => QuadText(Split(address, '.'))
    case V6 => ReadIpv6(address).Some? && ReadIpv6(address).value >= 0
  }

  predicate IsBlockedAddress(family: Family, address: string)
    requires IsOf(family, address)
  {
    match family
    case V4 => IsBlockedIpv4(address)
    case V6 => IsBlockedIpv6(ReadIpv6(address).value)
    case NoAddress => true
  }

  // ----- IPv4 --------------------------------------------------------------

  lemma FoldStep(append: (bv32, bv32) -> bv32, bits: seq<bv32>, last: bv32)
    ensures Fold(append, bits + [last]) == append(Fold(append, bits), last)
  {
    assert (bits + [last])[..|bits|] == bits;
  }

  lemma FoldTwo(append: (bv32, bv32) -> bv32, a: bv32, b: bv32)
    ensures Fold(append, [a, b]) == append(append(0, a), b)
  {
    FoldStep(append, [], a);
    FoldStep(append, [a], b);
    assert [] + [a] == [a] && [a] + [b] == [a, b];
  }

  lemma FoldFour(append: (bv32, bv32) -> bv32, a: bv32, b: bv32, c: bv32, d: bv32)
    ensures Fold(append, [a, b, c, d]) == append(append(append(append(0, a), b), c), d)
  {
    FoldTwo(append, a, b);
    FoldStep(append, [a, b], c);
    FoldStep(append, [a, b, c], d);
    assert [a, b] + [c] == [a, b, c] && [a, b, c] + [d] == [a, b, c, d];
  }

  function OctetAt(octets: seq<string>, i: nat): (b: bv32)
    requires QuadText(octets) && i < 4
    ensures b < 256
  {
    Bits(Value(octets[i]))
  }

  lemma FourBits(octets: seq<string>)
    requires QuadText(octets)
    ensures OctetTexts(octets)
    ensures OctetBits(octets) == [OctetAt(octets, 0), OctetAt(octets, 1), OctetAt(octets, 2), OctetAt(octets, 3)]
  {
  }

  lemma Ipv4Value(octets: seq<string>)
    requires QuadText(octets)
    ensures Split(Join(octets, '.'), '.') == octets
    ensures Ipv4ToNumber(Join(octets, '.')) ==
            FromOctets(OctetAt(octets, 0), OctetAt(octets, 1), OctetAt(octets, 2), OctetAt(octets, 3))
  {
    QuadHasDots(octets);
    FourBits(octets);
    FoldFour(AppendOctet, OctetAt(octets, 0), OctetAt(octets, 1), OctetAt(octets, 2), OctetAt(octets, 3));
  }

  /** Exactly the listed networks are blocked, told by the octets as they are written. */
  lemma BlockedIpv4Exactly(octets: seq<string>)
    requires QuadText(octets)
    ensures IsOf(V4, Join(octets, '.'))
    ensures IsBlockedAddress(V4, Join(octets, '.')) <==>
            BlockedOctets(OctetAt(octets, 0), OctetAt(octets, 1), OctetAt(octets, 2))
  {
    Ipv4Value(octets);
    BlockedExactly(OctetAt(octets, 0), OctetAt(octets, 1), OctetAt(octets, 2), OctetAt(octets, 3));
  }

  /** A text that is no address at all is blocked. */
  lemma OtherTextsBlocked(address: string)
    ensures IsBlockedAddress(NoAddress, address)
  {
  }

  // ----- IPv6 --------------------------------------------------------------

  predicate SixteenBits(groups: seq<int>) {
    forall i :: 0 <= i < |groups| ==> 0 <= groups[i] < 0x1_0000
  }

  predicate IsMapped(g: seq<int>)
    requires |g| == 8
  {
    g[0] == 0 && g[1] == 0 && g[2] == 0 && g[3] == 0 && g[4] == 0 && g[5] == 0xffff
  }

  /** Blocked groups: all but 2000::/3, and of that 2001::/23, 2001:db8::/32 and 2002::/16. */
  predicate BlockedGroups(g: seq<int>)
    requires |g| == 8 && SixteenBits(g)
  {
    if IsMapped(g) then BlockedOctets(Bits(g[6] / 256), Bits(g[6] % 256), Bits(g[7] / 256))
    else
      || !(0x2000 <= g[0] < 0x4000)
      || (g[0] == 0x2001 && (g[1] < 0x200 || g[1] == 0xdb8))
      || g[0] == 0x2002
  }

  lemma NumberStep(g: seq<int>, k: nat)
    requires k < |g|
    ensures Number(g[..k + 1]) == Number(g[..k]) * 0x1_0000 + g[k]
  {
    assert g[..k + 1][..k] == g[..k];
  }

  function Top(g: seq<int>): int
    requires |g| == 8
  {
    ((((g[0] * 0x1_0000 + g[1]) * 0x1_0000 + g[2]) * 0x1_0000 + g[3]) * 0x1_0000 + g[4]) * 0x1_0000 + g[5]
  }

  lemma NumberOfEight(g: seq<int>)
    requires |g| == 8
    ensures Number(g) == (Top(g) * 0x1_0000 + g[6]) * 0x1_0000 + g[7]
  {
    NumberStep(g, 0);
    NumberStep(g, 1);
    NumberStep(g, 2);
    NumberStep(g, 3);
    NumberStep(g, 4);
    NumberStep(g, 5);
    NumberStep(g, 6);
    NumberStep(g, 7);
    assert g[..0] == [] && g[..8] == g;
  }

  lemma Bounds(g: seq<int>)
    requires |g| == 8 && SixteenBits(g)
    ensures 0 <= Number(g) - (g[0] * 0x1_0000 + g[1]) * TWO_96 < TWO_96
  {
    NumberOfEight(g);
  }

  lemma PrefixTests(v: nat, g0: int, g1: int)
    requires 0 <= g0 < 0x1_0000 && 0 <= g1 < 0x1_0000
    requires 0 <= v - (g0 * 0x1_0000 + g1) * TWO_96 < TWO_96
    ensures v / TWO_125 == 1 <==> 0x2000 <= g0 < 0x4000
    ensures v / TWO_112 == 0x2002 <==> g0 == 0x2002
    ensures v / TWO_96 == 0x20010db8 <==> g0 == 0x2001 && g1 == 0xdb8
    ensures v / TWO_105 == 0x100080 <==> g0 == 0x2001 && g1 < 0x200
  {
  }

  lemma MappedTest(v: nat, g: seq<int>)
    requires |g| == 8 && SixteenBits(g) && v == Number(g)
    ensures v / TWO_32 == 0xffff <==> IsMapped(g)
  {
    NumberOfEight(g);
  }

  lemma BytesOf(v: nat, top: nat, a: nat, b: nat, c: nat, d: nat)
    requires a < 256 && b < 256 && c < 256 && d < 256
    requires v == top * TWO_32 + a * 0x100_0000 + b * 0x1_0000 + c * 0x100 + d
    ensures v / 0x100_0000 % 256 == a && v / 0x1_0000 % 256 == b && v / 0x100 % 256 == c
  {
    assert v / 0x100_0000 == top * 256 + a;
    assert v / 0x1_0000 == (top * 256 + a) * 256 + b;
    assert v / 0x100 == ((top * 256 + a) * 256 + b) * 256 + c;
  }

  lemma MappedValues(v: nat, g: seq<int>)
    requires |g| == 8 && SixteenBits(g) && v == Number(g) && Top(g) >= 0
    ensures v / 0x100_0000 % 256 == g[6] / 256 && v / 0x1_0000 % 256 == g[6] % 256 && v / 0x100 % 256 == g[7] / 256
  {
    NumberOfEight(g);
    BytesOf(v, Top(g), g[6] / 256, g[6] % 256, g[7] / 256, g[7] % 256);
  }

  lemma BlockedIpv6Exactly(v: nat, g: seq<int>)
    requires |g| == 8 && SixteenBits(g) && v == Number(g)
    ensures IsBlockedIpv6(v) <==> BlockedGroups(g)
  {
    MappedTest(v, g);
    if IsMapped(g) {
      var octets := MappedOctets(v);
      MappedQuad(v);
      MappedValues(v, g);
      OctetDigits(v / 0x100_0000 % 256);
      OctetDigits(v / 0x1_0000 % 256);
      OctetDigits(v / 0x100 % 256);
      BlockedIpv4Exactly(octets);
    } else {
      Bounds(g);
      PrefixTests(v, g[0], g[1]);
    }
  }

  lemma {:induction false} ValuesAreGroups(groups: seq<string>)
    requires GroupTexts(groups)
    ensures SixteenBits(Values(groups))
    decreases groups
  {
    if groups != [] {
      var last := groups[|groups| - 1];
      ValuesAreGroups(groups[..|groups| - 1]);
      assert GroupText(last);
      HexBelow(last);
      assert Pow16(4) == 0x1_0000;
      Pow16Grows(|last|, 4);
    }
  }

  lemma {:induction false} HexBelow(s: string)
    requires AllHex(s)
    ensures HexValue(s) < Pow16(|s|)
    decreases s
  {
    if s != "" {
      HexBelow(s[..|s| - 1]);
    }
  }

  lemma {:induction false} Pow16Grows(a: nat, b: nat)
    requires a <= b
    ensures Pow16(a) <= Pow16(b)
    decreases b - a
  {
    if a < b {
      Pow16Grows(a, b - 1);
    }
  }

  lemma NumberNotNegative(g: seq<int>)
    requires SixteenBits(g)
    ensures Number(g) >= 0
  {
    if g != [] {
      NumberNotNegative(g[..|g| - 1]);
    }
  }

  lemma MeantGroups(w: Written)
    requires ValidForm(w)
    ensures SixteenBits(Meant(w))
  {
    ValuesAreGroups(w.left);
    if w.right.Some? {
      ValuesAreGroups(w.right.value);
    }
  }

  /** However an IPv6 address is written, it is blocked exactly if its eight groups say so. */
  lemma BlockedFormExactly(w: Written)
    requires ValidForm(w)
    ensures SixteenBits(Meant(w)) && IsOf(V6, Text(w))
    ensures IsBlockedAddress(V6, Text(w)) <==> BlockedGroups(Meant(w))
  {
    MeantGroups(w);
    EveryFormRead(w);
    NumberNotNegative(Meant(w));
    BlockedIpv6Exactly(Number(Meant(w)), Meant(w));
  }
}
