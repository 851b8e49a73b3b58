/**
 The IPv4 networks webhooks are not sent to, tested with masks as the code does.
 */
module Ipv4Networks {

  datatype Network = Network(address: bv32, prefix: bv6)

  const THIS_NETWORK := Network(0x00000000, 8)
  const PRIVATE10 := Network(0x0a000000, 8)
  const SHARED_SPACE := Network(0x64400000, 10)
  const LOOPBACK := Network(0x7f000000, 8)
  const LINK_LOCAL := Network(0xa9fe0000, 16)
  const PRIVATE172 := Network(0xac100000, 12)
  const PROTOCOL_ASSIGNMENTS := Network(0xc0000000, 24)
  const TEST_NET1 := Network(0xc0000200, 24)
  const RELAY_ANYCAST := Network(0xc0586300, 24)
  const PRIVATE192 := Network(0xc0a80000, 16)
  const BENCHMARKING := Network(0xc6120000, 15)
  const TEST_NET2 := Network(0xc6336400, 24)
  const TEST_NET3 := Network(0xcb007100, 24)
  const MULTICAST := Network(0xe0000000, 4)
  const RESERVED := Network(0xf0000000, 4)

  const BLOCKED_NETWORKS: seq<Network> := [
    THIS_NETWORK, PRIVATE10, SHARED_SPACE, LOOPBACK,
    LINK_LOCAL, PRIVATE172, PROTOCOL_ASSIGNMENTS, TEST_NET1,
    RELAY_ANYCAST, PRIVATE192, BENCHMARKING, TEST_NET2,
    TEST_NET3, MULTICAST, RESERVED
  ]

  function Mask(prefix: bv6): bv32
    requires 0 < prefix <= 32
  {
    0xffffffff << (32 - prefix)
  }

  /** The test of the code: the address and the network agree on the first bits. */
  predicate MaskTest(value: bv32, n: Network) {
    0 < n.prefix <= 32 && value & Mask(n.prefix) == n.address & Mask(n.prefix)
  }

  /** The address lies from the first to the last of the network's. */
  predicate InInterval(value: bv32, n: Network) {
    0 < n.prefix <= 32 && n.address <= value <= n.address + ((1 << (32 - n.prefix)) - 1)
  }

  predicate SomeNetwork(test: Network -> bool, networks: seq<Network>) {
    networks != [] && (test(networks[0]) || SomeNetwork(test, networks[1..]))
  }

  predicate IsBlockedValue(value: bv32) {
    SomeNetwork((n: Network) => MaskTest(value, n), BLOCKED_NETWORKS)
  }

  function AppendOctet(value: bv32, octet: bv32): bv32 {
    value * 256 + octet
  }

  function FromOctets(a: bv32, b: bv32, c: bv32, d: bv32): bv32 {
    AppendOctet(AppendOctet(AppendOctet(AppendOctet(0, a), b), c), d)
  }

  predicate Octets(a: bv32, b: bv32, c: bv32, d: bv32) {
    a < 256 && b < 256 && c < 256 && d < 256
  }

  /** The networks by the first octets of their addresses. */
  predicate BlockedOctets(a: bv32, b: bv32, c: bv32) {
    || a == 0 || a == 10 || a == 127 || 224 <= a
    || (a == 100 && 64 <= b <= 127)
    || (a == 169 && b == 254)
    || (a == 172 && 16 <= b <= 31)
    || (a == 192 && b == 0 && (c == 0 || c == 2))
    || (a == 192 && b == 88 && c == 99)
    || (a == 192 && b == 168)
    || (a == 198 && 18 <= b <= 19)
    || (a == 198 && b == 51 && c == 100)
    || (a == 203 && b == 0 && c == 113)
  }

  // ----- one network after the other ---------------------------------------

  lemma ThisNetwork(v: bv32, a: bv32, b: bv32, c: bv32, d: bv32)
    ensures MaskTest(v, THIS_NETWORK) <==> InInterval(v, THIS_NETWORK)
    ensures Octets(a, b, c, d) ==> (MaskTest(FromOctets(a, b, c, d), THIS_NETWORK) <==> a == 0)
  {
  }

  lemma Private10(v: bv32, a: bv32, b: bv32, c: bv32, d: bv32)
    ensures MaskTest(v, PRIVATE10) <==> InInterval(v, PRIVATE10)
    ensures Octets(a, b, c, d) ==> (MaskTest(FromOctets(a, b, c, d), PRIVATE10) <==> a == 10)
  {
  }

  lemma SharedSpace(v: bv32, a: bv32, b: bv32, c: bv32, d: bv32)
    ensures MaskTest(v, SHARED_SPACE) <==> InInterval(v, SHARED_SPACE)
    ensures Octets(a, b, c, d) ==> (MaskTest(FromOctets(a, b, c, d), SHARED_SPACE) <==> a == 100 && 64 <= b <= 127)
  {
  }

  lemma Loopback(v: bv32, a: bv32, b: bv32, c: bv32, d: bv32)
    ensures MaskTest(v, LOOPBACK) <==> InInterval(v, LOOPBACK)
    ensures Octets(a, b, c, d) ==> (MaskTest(FromOctets(a, b, c, d), LOOPBACK) <==> a == 127)
  {
  }

  lemma LinkLocal(v: bv32, a: bv32, b: bv32, c: bv32, d: bv32)
    ensures MaskTest(v, LINK_LOCAL) <==> InInterval(v, LINK_LOCAL)
    ensures Octets(a, b, c, d) ==> (MaskTest(FromOctets(a, b, c, d), LINK_LOCAL) <==> a == 169 && b == 254)
  {
  }

  lemma Private172(v: bv32, a: bv32, b: bv32, c: bv32, d: bv32)
    ensures MaskTest(v, PRIVATE172) <==> InInterval(v, PRIVATE172)
    ensures Octets(a, b, c, d) ==> (MaskTest(FromOctets(a, b, c, d), PRIVATE172) <==> a == 172 && 16 <= b <= 31)
  {
  }

  lemma ProtocolAssignments(v: bv32, a: bv32, b: bv32, c: bv32, d: bv32)
    ensures MaskTest(v, PROTOCOL_ASSIGNMENTS) <==> InInterval(v, PROTOCOL_ASSIGNMENTS)
    ensures Octets(a, b, c, d) ==>
      (MaskTest(FromOctets(a, b, c, d), PROTOCOL_ASSIGNMENTS) <==> a == 192 && b == 0 && c == 0)
  {
  }

  lemma TestNet1(v: bv32, a: bv32, b: bv32, c: bv32, d: bv32)
    ensures MaskTest(v, TEST_NET1) <==> InInterval(v, TEST_NET1)
    ensures Octets(a, b, c, d) ==> (MaskTest(FromOctets(a, b, c, d), TEST_NET1) <==> a == 192 && b == 0 && c == 2)
  {
  }

  lemma RelayAnycast(v: bv32, a: bv32, b: bv32, c: bv32, d: bv32)
    ensures MaskTest(v, RELAY_ANYCAST) <==> InInterval(v, RELAY_ANYCAST)
    ensures Octets(a, b, c, d) ==> (MaskTest(FromOctets(a, b, c, d), RELAY_ANYCAST) <==> a == 192 && b == 88 && c == 99)
  {
  }

  lemma Private192(v: bv32, a: bv32, b: bv32, c: bv32, d: bv32)
    ensures MaskTest(v, PRIVATE192) <==> InInterval(v, PRIVATE192)
    ensures Octets(a, b, c, d) ==> (MaskTest(FromOctets(a, b, c, d), PRIVATE192) <==> a == 192 && b == 168)
  {
  }

  lemma Benchmarking(v: bv32, a: bv32, b: bv32, c: bv32, d: bv32)
    ensures MaskTest(v, BENCHMARKING) <==> InInterval(v, BENCHMARKING)
    ensures Octets(a, b, c, d) ==> (MaskTest(FromOctets(a, b, c, d), BENCHMARKING) <==> a == 198 && 18 <= b <= 19)
  {
  }

  lemma TestNet2(v: bv32, a: bv32, b: bv32, c: bv32, d: bv32)
    ensures MaskTest(v, TEST_NET2) <==> InInterval(v, TEST_NET2)
    ensures Octets(a, b, c, d) ==> (MaskTest(FromOctets(a, b, c, d), TEST_NET2) <==> a == 198 && b == 51 && c == 100)
  {
  }

  lemma TestNet3(v: bv32, a: bv32, b: bv32, c: bv32, d: bv32)
    ensures MaskTest(v, TEST_NET3) <==> InInterval(v, TEST_NET3)
    ensures Octets(a, b, c, d) ==> (MaskTest(FromOctets(a, b, c, d), TEST_NET3) <==> a == 203 && b == 0 && c == 113)
  {
  }

  lemma Multicast(v: bv32, a: bv32, b: bv32, c: bv32, d: bv32)
    ensures MaskTest(v, MULTICAST) <==> InInterval(v, MULTICAST)
    ensures Octets(a, b, c, d) ==> (MaskTest(FromOctets(a, b, c, d), MULTICAST) <==> 224 <= a <= 239)
  {
  }

  lemma Reserved(v: bv32, a: bv32, b: bv32, c: bv32, d: bv32)
    ensures MaskTest(v, RESERVED) <==> InInterval(v, RESERVED)
    ensures Octets(a, b, c, d) ==> (MaskTest(FromOctets(a, b, c, d), RESERVED) <==> 240 <= a)
  {
  }

  // ----- all of them -------------------------------------------------------

  lemma SomeListed(test: Network -> bool)
    ensures SomeNetwork(test, BLOCKED_NETWORKS) <==>
            || test(THIS_NETWORK) || test(PRIVATE10) || test(SHARED_SPACE) || test(LOOPBACK) || test(LINK_LOCAL)
            || test(PRIVATE172) || test(PROTOCOL_ASSIGNMENTS) || test(TEST_NET1) || test(RELAY_ANYCAST)
            || test(PRIVATE192)
            || test(BENCHMARKING) || test(TEST_NET2) || test(TEST_NET3) || test(MULTICAST) || test(RESERVED)
  {
    var last := [BENCHMARKING, TEST_NET2, TEST_NET3, MULTICAST, RESERVED];
    var middle := [PRIVATE172, PROTOCOL_ASSIGNMENTS, TEST_NET1, RELAY_ANYCAST, PRIVATE192] + last;
    assert BLOCKED_NETWORKS == [THIS_NETWORK, PRIVATE10, SHARED_SPACE, LOOPBACK, LINK_LOCAL] + middle;
    assert last + [] == last;
    FiveNetworks(test, BENCHMARKING, TEST_NET2, TEST_NET3, MULTICAST, RESERVED, []);
    FiveNetworks(test, PRIVATE172, PROTOCOL_ASSIGNMENTS, TEST_NET1, RELAY_ANYCAST, PRIVATE192, last);
    FiveNetworks(test, THIS_NETWORK, PRIVATE10, SHARED_SPACE, LOOPBACK, LINK_LOCAL, middle);
  }

  lemma FiveNetworks(
      test: Network -> bool, a: Network, b: Network, c: Network, d: Network, e: Network, rest: seq<Network>)
    ensures SomeNetwork(test, [a, b, c, d, e] + rest) <==>
            test(a) || test(b) || test(c) || test(d) || test(e) || SomeNetwork(test, rest)
  {
    SomeCons(test, e, rest);
    SomeCons(test, d, [e] + rest);
    SomeCons(test, c, [d] + ([e] + rest));
    SomeCons(test, b, [c] + ([d] + ([e] + rest)));
    SomeCons(test, a, [b] + ([c] + ([d] + ([e] + rest))));
    assert [a, b, c, d, e] + rest == [a] + ([b] + ([c] + ([d] + ([e] + rest))));
  }

  lemma SomeCons(test: Network -> bool, n: Network, rest: seq<Network>)
    ensures SomeNetwork(test, [n] + rest) <==> test(n) || SomeNetwork(test, rest)
  {
    assert ([n] + rest)[1..] == rest;
  }

  /** An address is blocked exactly if it lies between the first and the last one of a network. */
  lemma BlockedIntervals(v: bv32)
    ensures IsBlockedValue(v) <==> SomeNetwork((n: Network) => InInterval(v, n), BLOCKED_NETWORKS)
  {
    SomeListed((n: Network) => MaskTest(v, n));
    SomeListed((n: Network) => InInterval(v, n));
    ThisNetwork(v, 0, 0, 0, 0);
    Private10(v, 0, 0, 0, 0);
    SharedSpace(v, 0, 0, 0, 0);
    Loopback(v, 0, 0, 0, 0);
    LinkLocal(v, 0, 0, 0, 0);
    Private172(v, 0, 0, 0, 0);
    ProtocolAssignments(v, 0, 0, 0, 0);
    TestNet1(v, 0, 0, 0, 0);
    RelayAnycast(v, 0, 0, 0, 0);
    Private192(v, 0, 0, 0, 0);
    Benchmarking(v, 0, 0, 0, 0);
    TestNet2(v, 0, 0, 0, 0);
    TestNet3(v, 0, 0, 0, 0);
    Multicast(v, 0, 0, 0, 0);
    Reserved(v, 0, 0, 0, 0);
  }

  /** An address is blocked exactly if its octets lie in one of the networks. */
  lemma BlockedExactly(a: bv32, b: bv32, c: bv32, d: bv32)
    requires Octets(a, b, c, d)
    ensures IsBlockedValue(FromOctets(a, b, c, d)) <==> BlockedOctets(a, b, c)
  {
    SomeListed((n: Network) => MaskTest(FromOctets(a, b, c, d), n));
    ThisNetwork(0, a, b, c, d);
    Private10(0, a, b, c, d);
    SharedSpace(0, a, b, c, d);
    Loopback(0, a, b, c, d);
    LinkLocal(0, a, b, c, d);
    Private172(0, a, b, c, d);
    ProtocolAssignments(0, a, b, c, d);
    TestNet1(0, a, b, c, d);
    RelayAnycast(0, a, b, c, d);
    Private192(0, a, b, c, d);
    Benchmarking(0, a, b, c, d);
    TestNet2(0, a, b, c, d);
    TestNet3(0, a, b, c, d);
    Multicast(0, a, b, c, d);
    Reserved(0, a, b, c, d);
  }
}
