/**
 Reading IPv6 addresses: the code's reader, and the textual forms of section 2.2 of
 RFC 4291, written with or without "::", a dotted quad at the end, and a zone.
 */
module Ipv6Text {
  import opened Common
  import opened Numerals
  import opened Texts

  // ----- hexadecimal -------------------------------------------------------

  predicate IsHexDigit(c: char) {
    '0' <= c <= '9' || 'a' <= c <= 'f' || 'A' <= c <= 'F'
  }

  function HexDigitValue(c: char): (d: int)
    requires IsHexDigit(c)
    ensures 0 <= d < 16
  {
    if '0' <= c <= '9' then c as int - '0' as int
    else if 'a' <= c <= 'f' then c as int - 'a' as int + 10
    else c as int - 'A' as int + 10
  }

  predicate AllHex(s: string) {
    forall i :: 0 <= i < |s| ==> IsHexDigit(s[i])
  }

  function HexValue(s: string): nat
    requires AllHex(s)
  {
    if s == "" then 0 else HexValue(s[..|s| - 1]) * 16 + HexDigitValue(s[|s| - 1])
  }

  function HexDigit(d: int): (c: char)
    requires 0 <= d < 16
    ensures IsHexDigit(c) && HexDigitValue(c) == d
  {
    if d < 10 then ('0' as int + d) as char else ('a' as int + d - 10) as char
  }

  /** toString(16) */
  function Hex(n: nat): (s: string)
    ensures s != "" && AllHex(s)
  {
    if n < 16 then [HexDigit(n)] else Hex(n / 16) + [HexDigit(n % 16)]
  }

  lemma {:induction false} HexRoundTrip(n: nat)
    ensures HexValue(Hex(n)) == n
    decreases n
  {
    if n >= 16 {
      HexRoundTrip(n / 16);
      assert Hex(n)[..|Hex(n)| - 1] == Hex(n / 16);
    } else {
      assert Hex(n)[..0] == "";
    }
  }

  lemma {:induction false} HexShort(n: nat, k: nat)
    requires k > 0 && n < Pow16(k)
    ensures |Hex(n)| <= k
    decreases k
  {
    if n >= 16 {
      HexShort(n / 16, k - 1);
    }
  }

  function Pow16(k: nat): nat {
    if k == 0 then 1 else 16 * Pow16(k - 1)
  }

  function LowerChar(c: char): char {
    if 'A' <= c <= 'Z' then (c as int + 32) as char else c
  }

  /** toLowerCase */
  function Lower(s: string): (r: string)
    ensures |r| == |s| && forall i :: 0 <= i < |r| ==> r[i] == LowerChar(s[i])
  {
    seq(|s|, i requires 0 <= i < |s| => LowerChar(s[i]))
  }

  lemma {:induction false} LowerHex(s: string)
    requires AllHex(s)
    ensures AllHex(Lower(s)) && HexValue(Lower(s)) == HexValue(s)
    decreases s
  {
    if s != "" {
      LowerHex(s[..|s| - 1]);
      assert Lower(s)[..|s| - 1] == Lower(s[..|s| - 1]);
    }
  }

  // ----- what the code does ------------------------------------------------

  /** The place of the last c, or -1. */
  function LastIndexOf(s: string, c: char): (i: int)
    ensures -1 <= i < |s|
  {
    if s == "" then -1
    else if s[|s| - 1] == c then |s| - 1
    else LastIndexOf(s[..|s| - 1], c)
  }

  /** The place of the first "::", or the length of the text. */
  function FindDouble(s: string): (i: nat)
    ensures i <= |s| && (i < |s| ==> i + 2 <= |s|)
  {
    if |s| < 2 then |s|
    else if s[0] == ':' && s[1] == ':' then 0
    else FindDouble(s[1..]) + 1
  }

  predicate OctetText(s: string) {
    s != "" && AllDigits(s) && Value(s) < 256
  }

  predicate QuadText(octets: seq<string>) {
    |octets| == 4 && forall i :: 0 <= i < 4 ==> OctetText(octets[i])
  }

  function HighGroup(octets: seq<string>): (n: nat)
    requires QuadText(octets)
    ensures n < 0x10000
  {
    Value(octets[0]) * 256 + Value(octets[1])
  }

  function LowGroup(octets: seq<string>): (n: nat)
    requires QuadText(octets)
    ensures n < 0x10000
  {
    Value(octets[2]) * 256 + Value(octets[3])
  }

  /** A dotted quad at the end becomes two hexadecimal groups. */
  function ExpandDotted(s: string): Option<string> {
    if '.' !in s then Some(s)
    else
      var start := LastIndexOf(s, ':') + 1;
      var octets := Split(s[start..], '.');
      if QuadText(octets) then Some(s[..start] + Hex(HighGroup(octets)) + [':'] + Hex(LowGroup(octets))) else None
  }

  function GroupsIn(half: string): seq<string> {
    if half == "" then [] else Split(half, ':')
  }

  function ZeroTexts(n: nat): (r: seq<string>)
    ensures |r| == n && forall i :: 0 <= i < n ==> r[i] == "0"
  {
    seq(n, i => "0")
  }

  /** "::" stands for as many zeros as there is room for. */
  function FillUp(left: seq<string>, right: seq<string>): Option<seq<string>> {
    if |left| + |right| > 8 then None else Some(left + ZeroTexts(8 - |left| - |right|) + right)
  }

  function Groups(s: string): Option<seq<string>> {
    var i := FindDouble(s);
    if i == |s| then Some(GroupsIn(s)) else FillUp(GroupsIn(s[..i]), GroupsIn(s[i + 2..]))
  }

  predicate GroupText(s: string) {
    1 <= |s| <= 4 && AllHex(s)
  }

  function Number(groups: seq<int>): int {
    if groups == [] then 0 else Number(groups[..|groups| - 1]) * 0x10000 + groups[|groups| - 1]
  }

  predicate GroupTexts(groups: seq<string>) {
    forall i :: 0 <= i < |groups| ==> GroupText(groups[i])
  }

  function Values(groups: seq<string>): (r: seq<int>)
    requires GroupTexts(groups)
    ensures |r| == |groups|
  {
    if groups == [] then [] else Values(groups[..|groups| - 1]) + [HexValue(groups[|groups| - 1])]
  }

  function ReadGroups(s: string): Option<int> {
    match Groups(s)
    case None => None
    case Some(groups) =>
      if GroupTexts(groups) then Some(Number(Values(groups))) else None
  }

  /**
   The number an address stands for. None is for texts that net.isIP does not take for IPv6
   addresses; the code never reads those.
   */
  function ReadIpv6(address: string): Option<int> {
    var lower := Lower(address);
    match ExpandDotted(lower[..IndexOf(lower, '%')])
    case None => None
    case Some(s) => ReadGroups(s)
  }

  // ----- the textual forms -------------------------------------------------

  /**
   An address as it may be written: all groups, or groups before and after "::" (right), the
   last two groups perhaps as a dotted quad, and perhaps a zone.
   */
  datatype Written =
    Written(left: seq<string>, right: Option<seq<string>>, quad: Option<seq<string>>, zone: Option<string>)

  function GroupCount(w: Written): nat {
    |w.left| + (if w.right.Some? then |w.right.value| else 0) + if w.quad.Some? then 2 else 0
  }

  /** Eight groups, or fewer with "::" for the missing ones. */
  predicate ValidForm(w: Written) {
    && GroupTexts(w.left) && (w.right.Some? ==> GroupTexts(w.right.value)) && (w.quad.Some? ==> QuadText(w.quad.value))
    && (if w.right.Some? then GroupCount(w) <= 7 else GroupCount(w) == 8)
  }

  function WithQuad(groups: seq<string>, quad: Option<seq<string>>): seq<string> {
    if quad.Some? then groups + [Join(quad.value, '.')] else groups
  }

  function Body(w: Written): string {
    if w.right.Some? then Join(w.left, ':') + "::" + Join(WithQuad(w.right.value, w.quad), ':')
    else Join(WithQuad(w.left, w.quad), ':')
  }

  function Zone(zone: Option<string>): string {
    if zone.Some? then "%" + zone.value else ""
  }

  function Text(w: Written): string {
    Body(w) + Zone(w.zone)
  }

  function QuadValues(quad: Option<seq<string>>): seq<int>
    requires quad.Some? ==> QuadText(quad.value)
  {
    if quad.Some? then
      var q := quad.value;
      [Value(q[0]) * 256 + Value(q[1]), Value(q[2]) * 256 + Value(q[3])]
    else []
  }

  function Zeros16(n: nat): (r: seq<int>)
    ensures |r| == n && forall i :: 0 <= i < n ==> r[i] == 0
  {
    seq(n, i => 0)
  }

  /** The eight groups that are meant. */
  function Meant(w: Written): (groups: seq<int>)
    requires ValidForm(w)
    ensures |groups| == 8
  {
    if w.right.Some? then
      Values(w.left) + Zeros16(8 - GroupCount(w)) + Values(w.right.value) + QuadValues(w.quad)
    else Values(w.left) + QuadValues(w.quad)
  }

  // ----- characters --------------------------------------------------------

  lemma GroupLacks(g: string, c: char)
    requires AllHex(g) && !IsHexDigit(c)
    ensures c !in g
  {
  }

  ghost predicate Lacks(parts: seq<string>, c: char) {
    forall i :: 0 <= i < |parts| ==> c !in parts[i]
  }

  lemma {:induction false} JoinLacks(parts: seq<string>, sep: char, c: char)
    requires c != sep && Lacks(parts, c)
    ensures c !in Join(parts, sep)
    decreases parts
  {
    if |parts| > 1 {
      JoinLacks(parts[1..], sep, c);
    }
  }

  lemma GroupsLack(groups: seq<string>, c: char)
    requires GroupTexts(groups) && !IsHexDigit(c)
    ensures Lacks(groups, c)
  {
    forall i | 0 <= i < |groups|
      ensures c !in groups[i]
    {
      assert GroupText(groups[i]);
    }
  }

  lemma QuadLacks(octets: seq<string>, c: char)
    requires QuadText(octets) && !IsHexDigit(c) && c != '.'
    ensures c !in Join(octets, '.')
  {
    forall i | 0 <= i < |octets|
      ensures c !in octets[i]
    {
      assert OctetText(octets[i]);
    }
    JoinLacks(octets, '.', c);
  }

  lemma QuadHasDots(octets: seq<string>)
    requires QuadText(octets)
    ensures '.' in Join(octets, '.') && Split(Join(octets, '.'), '.') == octets
  {
    forall i | 0 <= i < |octets|
      ensures '.' !in octets[i]
    {
      assert OctetText(octets[i]);
    }
    SplitJoin(octets, '.');
    assert Join(octets, '.')[|octets[0]|] == '.';
  }

  lemma WithQuadLacks(groups: seq<string>, quad: Option<seq<string>>, c: char)
    requires GroupTexts(groups) && (quad.Some? ==> QuadText(quad.value)) && !IsHexDigit(c) && c != '.' && c != ':'
    ensures c !in Join(WithQuad(groups, quad), ':')
  {
    GroupsLack(groups, c);
    if quad.Some? {
      QuadLacks(quad.value, c);
    }
    JoinLacks(WithQuad(groups, quad), ':', c);
  }

  /** The zone is cut off. */
  lemma ZoneCut(w: Written)
    requires ValidForm(w)
    ensures Text(w)[..IndexOf(Text(w), '%')] == Body(w)
  {
    WithQuadLacks(w.left, w.quad, '%');
    WithQuadLacks(w.left, None, '%');
    if w.right.Some? {
      WithQuadLacks(w.right.value, w.quad, '%');
    }
    IndexFound(Body(w), Zone(w.zone), '%');
  }

  // ----- lower case --------------------------------------------------------

  function LowerAll(parts: seq<string>): (r: seq<string>)
    ensures |r| == |parts|
  {
    seq(|parts|, i requires 0 <= i < |parts| => Lower(parts[i]))
  }

  lemma {:induction false} LowerJoin(parts: seq<string>, sep: char)
    requires LowerChar(sep) == sep
    ensures Lower(Join(parts, sep)) == Join(LowerAll(parts), sep)
    decreases parts
  {
    if |parts| > 1 {
      var tail := Join(parts[1..], sep);
      LowerJoin(parts[1..], sep);
      assert LowerAll(parts)[1..] == LowerAll(parts[1..]);
      assert Lower(parts[0] + [sep] + tail) == Lower(parts[0]) + [sep] + Lower(tail);
    }
  }

  lemma {:induction false} LowerGroups(groups: seq<string>)
    requires GroupTexts(groups)
    ensures GroupTexts(LowerAll(groups)) && Values(LowerAll(groups)) == Values(groups)
    decreases groups
  {
    if groups != [] {
      var init, last := groups[..|groups| - 1], groups[|groups| - 1];
      assert GroupText(last);
      LowerGroups(init);
      LowerHex(last);
      assert LowerAll(groups) == LowerAll(init) + [Lower(last)];
      assert LowerAll(groups)[..|groups| - 1] == LowerAll(init);
    }
  }

  lemma LowerQuad(octets: seq<string>)
    requires QuadText(octets)
    ensures Lower(Join(octets, '.')) == Join(octets, '.')
  {
    forall i | 0 <= i < |octets|
      ensures Lower(octets[i]) == octets[i]
    {
      assert OctetText(octets[i]);
    }
    LowerJoin(octets, '.');
    assert LowerAll(octets) == octets;
  }

  lemma LowerWithQuad(groups: seq<string>, quad: Option<seq<string>>)
    requires quad.Some? ==> QuadText(quad.value)
    ensures Lower(Join(WithQuad(groups, quad), ':')) == Join(WithQuad(LowerAll(groups), quad), ':')
  {
    LowerJoin(WithQuad(groups, quad), ':');
    if quad.Some? {
      LowerQuad(quad.value);
      assert LowerAll(WithQuad(groups, quad)) == WithQuad(LowerAll(groups), quad);
    }
  }

  function LowerForm(w: Written): Written {
    Written(LowerAll(w.left), if w.right.Some? then Some(LowerAll(w.right.value)) else None, w.quad,
            if w.zone.Some? then Some(Lower(w.zone.value)) else None)
  }

  lemma LowerMeans(w: Written)
    requires ValidForm(w)
    ensures ValidForm(LowerForm(w)) && Meant(LowerForm(w)) == Meant(w)
  {
    LowerGroups(w.left);
    if w.right.Some? {
      LowerGroups(w.right.value);
    }
  }

  /** In lower case the text is another form of the same address. */
  lemma LowerText(w: Written)
    requires ValidForm(w)
    ensures Lower(Text(w)) == Text(LowerForm(w))
  {
    LowerBody(w);
    LowerConcat(Body(w), Zone(w.zone));
    if w.zone.Some? {
      LowerConcat("%", w.zone.value);
      assert Lower("%") == "%";
    }
  }

  lemma LowerConcat(a: string, b: string)
    ensures Lower(a + b) == Lower(a) + Lower(b)
  {
  }

  lemma LowerBody(w: Written)
    requires ValidForm(w)
    ensures Lower(Body(w)) == Body(LowerForm(w))
  {
    LowerWithQuad(w.left, w.quad);
    LowerWithQuad(w.left, None);
    if w.right.Some? {
      var a, b := Join(w.left, ':'), Join(WithQuad(w.right.value, w.quad), ':');
      LowerWithQuad(w.right.value, w.quad);
      LowerConcat(a + "::", b);
      LowerConcat(a, "::");
      assert Lower("::") == "::";
    }
  }

  // ----- the dotted quad ---------------------------------------------------

  lemma {:induction false} LastFound(before: string, after: string, c: char)
    requires before != "" && before[|before| - 1] == c && c !in after
    ensures LastIndexOf(before + after, c) == |before| - 1
    decreases after
  {
    if after == "" {
      assert before + after == before;
    } else {
      var init := after[..|after| - 1];
      LastFound(before, init, c);
      assert (before + after)[..|before + after| - 1] == before + init;
    }
  }

  lemma ExpandQuad(before: string, octets: seq<string>)
    requires before != "" && before[|before| - 1] == ':' && QuadText(octets)
    ensures ExpandDotted(before + Join(octets, '.')) ==
            Some(before + Hex(HighGroup(octets)) + [':'] + Hex(LowGroup(octets)))
  {
    var quad := Join(octets, '.');
    QuadHasDots(octets);
    QuadLacks(octets, ':');
    LastFound(before, quad, ':');
    var s := before + quad;
    assert s[..|before|] == before && s[|before|..] == quad;
    assert '.' in s;
  }

  function QuadGroups(octets: seq<string>): seq<string>
    requires QuadText(octets)
  {
    [Hex(HighGroup(octets)), Hex(LowGroup(octets))]
  }

  function Plain(groups: seq<string>, quad: Option<seq<string>>): seq<string>
    requires quad.Some? ==> QuadText(quad.value)
  {
    if quad.Some? then groups + QuadGroups(quad.value) else groups
  }

  lemma JoinTwo(groups: seq<string>, a: string, b: string)
    ensures Join(groups + [a, b], ':') == (if groups == [] then "" else Join(groups, ':') + ":") + (a + [':'] + b)
    ensures Join(groups + [a], ':') == (if groups == [] then "" else Join(groups, ':') + ":") + a
  {
    if groups == [] {
      assert groups + [a, b] == [a, b] && groups + [a] == [a];
      assert [a, b][1..] == [b];
    } else {
      assert groups + [a, b] == (groups + [a]) + [b];
      JoinAppend(groups, a, ':');
      JoinAppend(groups + [a], b, ':');
    }
  }

  function BeforeLast(groups: seq<string>): string {
    if groups == [] then "" else Join(groups, ':') + ":"
  }

  lemma JoinedQuad(groups: seq<string>, octets: seq<string>)
    requires QuadText(octets)
    ensures Join(WithQuad(groups, Some(octets)), ':') == BeforeLast(groups) + Join(octets, '.')
    ensures Join(Plain(groups, Some(octets)), ':') ==
            BeforeLast(groups) + (Hex(HighGroup(octets)) + [':'] + Hex(LowGroup(octets)))
  {
    JoinTwo(groups, Join(octets, '.'), "");
    JoinTwo(groups, Hex(HighGroup(octets)), Hex(LowGroup(octets)));
  }

  lemma Associate(a: string, b: string, c: string)
    ensures a + b + c == a + (b + c)
  {
  }

  /** Expanding the quad behind some groups, whatever ends with a colon before them. */
  lemma ExpandBehind(start: string, groups: seq<string>, octets: seq<string>)
    requires QuadText(octets) && (groups == [] ==> start != "") && (start != "" ==> start[|start| - 1] == ':')
    ensures ExpandDotted(start + Join(WithQuad(groups, Some(octets)), ':')) ==
            Some(start + Join(Plain(groups, Some(octets)), ':'))
  {
    var before, high, low := start + BeforeLast(groups), Hex(HighGroup(octets)), Hex(LowGroup(octets));
    JoinedQuad(groups, octets);
    Associate(start, BeforeLast(groups), Join(octets, '.'));
    Associate(start, BeforeLast(groups), high + [':'] + low);
    assert before + high + [':'] + low == before + (high + [':'] + low);
    ExpandQuad(before, octets);
  }

  lemma NothingToExpand(w: Written)
    requires ValidForm(w) && w.quad.None?
    ensures ExpandDotted(Body(w)) == Some(Body(w))
  {
    GroupsLack(w.left, '.');
    JoinLacks(w.left, ':', '.');
    if w.right.Some? {
      GroupsLack(w.right.value, '.');
      JoinLacks(w.right.value, ':', '.');
    }
  }

  function PlainForm(w: Written): Written
    requires ValidForm(w)
  {
    if w.right.Some? then Written(w.left, Some(Plain(w.right.value, w.quad)), None, w.zone)
    else Written(Plain(w.left, w.quad), None, None, w.zone)
  }

  lemma Expanded(w: Written)
    requires ValidForm(w)
    ensures ExpandDotted(Body(w)) == Some(Body(PlainForm(w)))
  {
    if w.quad.None? {
      NothingToExpand(w);
    } else if w.right.Some? {
      ExpandBehind(Join(w.left, ':') + "::", w.right.value, w.quad.value);
    } else {
      ExpandBehind("", w.left, w.quad.value);
      assert "" + Join(WithQuad(w.left, w.quad), ':') == Join(WithQuad(w.left, w.quad), ':');
      assert "" + Join(Plain(w.left, w.quad), ':') == Join(Plain(w.left, w.quad), ':');
    }
  }

  lemma {:induction false} ValuesConcat(a: seq<string>, b: seq<string>)
    requires GroupTexts(a) && GroupTexts(b)
    ensures GroupTexts(a + b) && Values(a + b) == Values(a) + Values(b)
    decreases b
  {
    if b == [] {
      assert a + b == a;
    } else {
      var init, last := b[..|b| - 1], b[|b| - 1];
      ValuesConcat(a, init);
      assert (a + b)[..|a + b| - 1] == a + init;
      assert Values(a) + (Values(init) + [HexValue(last)]) == Values(a) + Values(init) + [HexValue(last)];
    }
  }

  lemma QuadMeans(octets: seq<string>)
    requires QuadText(octets)
    ensures GroupTexts(QuadGroups(octets)) && Values(QuadGroups(octets)) == QuadValues(Some(octets))
  {
    var high, low := Hex(HighGroup(octets)), Hex(LowGroup(octets));
    assert Pow16(4) == 0x10000;
    HexShort(HighGroup(octets), 4);
    HexShort(LowGroup(octets), 4);
    HexRoundTrip(HighGroup(octets));
    HexRoundTrip(LowGroup(octets));
    assert [high, low][..1] == [high] && [high][..0] == [];
  }

  lemma PlainMeans(groups: seq<string>, quad: Option<seq<string>>)
    requires GroupTexts(groups) && (quad.Some? ==> QuadText(quad.value))
    ensures GroupTexts(Plain(groups, quad)) && Values(Plain(groups, quad)) == Values(groups) + QuadValues(quad)
  {
    if quad.Some? {
      QuadMeans(quad.value);
      ValuesConcat(groups, QuadGroups(quad.value));
    } else {
      assert Values(groups) + [] == Values(groups);
    }
  }

  lemma PlainFormMeans(w: Written)
    requires ValidForm(w)
    ensures ValidForm(PlainForm(w)) && Meant(PlainForm(w)) == Meant(w)
  {
    if w.right.Some? {
      PlainMeans(w.right.value, w.quad);
      PlainCount(w.right.value, w.quad);
      Regroup(Values(w.left) + Zeros16(8 - GroupCount(w)), Values(w.right.value), QuadValues(w.quad));
    } else {
      PlainMeans(w.left, w.quad);
      PlainCount(w.left, w.quad);
      Regroup(Values(w.left), QuadValues(w.quad), []);
    }
  }

  lemma Regroup(a: seq<int>, b: seq<int>, c: seq<int>)
    ensures a + b + c == a + (b + c) + [] && a + b == a + b + []
  {
  }

  lemma PlainCount(groups: seq<string>, quad: Option<seq<string>>)
    requires quad.Some? ==> QuadText(quad.value)
    ensures |Plain(groups, quad)| == |groups| + if quad.Some? then 2 else 0
  {
  }

  // ----- groups ------------------------------------------------------------

  lemma {:induction false} FindSkip(part: string, rest: string)
    requires ':' !in part
    ensures FindDouble(part + rest) == |part| + FindDouble(rest)
    decreases part
  {
    if part == "" {
      assert part + rest == rest;
    } else {
      FindSkip(part[1..], rest);
      assert (part + rest)[1..] == part[1..] + rest;
      if |part + rest| < 2 {
        assert rest == "" && part[1..] == "";
      }
    }
  }

  lemma FindPastColon(s: string)
    requires s != "" && s[0] != ':'
    ensures FindDouble(":" + s) == 1 + FindDouble(s)
  {
    assert (":" + s)[1..] == s;
  }

  lemma FindPastGroup(first: string, tail: string)
    requires GroupText(first) && tail != "" && tail[0] != ':'
    ensures FindDouble(first + (":" + tail)) == |first| + 1 + FindDouble(tail)
  {
    GroupLacks(first, ':');
    FindPastColon(tail);
    FindSkip(first, ":" + tail);
  }

  /** There is no "::" within joined groups. */
  lemma {:induction false} FindInJoin(groups: seq<string>, rest: string)
    requires GroupTexts(groups)
    ensures FindDouble(Join(groups, ':') + rest) == |Join(groups, ':')| + FindDouble(rest)
    decreases groups
  {
    if groups == [] {
      assert Join(groups, ':') + rest == rest;
    } else if |groups| == 1 {
      assert GroupText(groups[0]);
      GroupLacks(groups[0], ':');
      FindSkip(groups[0], rest);
    } else {
      assert GroupText(groups[0]);
      var tail := Join(groups[1..], ':');
      JoinStart(groups[1..]);
      FindInJoin(groups[1..], rest);
      FindPastGroup(groups[0], tail + rest);
      assert Join(groups, ':') + rest == groups[0] + (":" + (tail + rest));
    }
  }

  lemma JoinStart(groups: seq<string>)
    requires GroupTexts(groups) && groups != []
    ensures Join(groups, ':') != "" && Join(groups, ':')[0] != ':'
  {
    assert GroupText(groups[0]);
    GroupLacks(groups[0], ':');
    assert Join(groups, ':')[0] == groups[0][0];
  }

  lemma GroupsBack(groups: seq<string>)
    requires GroupTexts(groups)
    ensures GroupsIn(Join(groups, ':')) == groups
  {
    if groups != [] {
      JoinStart(groups);
      GroupsLack(groups, ':');
      SplitJoin(groups, ':');
    }
  }

  lemma FullGroups(groups: seq<string>)
    requires GroupTexts(groups)
    ensures Groups(Join(groups, ':')) == Some(groups)
  {
    FindInJoin(groups, "");
    assert Join(groups, ':') + "" == Join(groups, ':');
    GroupsBack(groups);
  }

  lemma HalvesFound(s: string, a: string, b: string)
    requires FindDouble(s) == |a| && |a| + 2 <= |s| && s[..|a|] == a && s[|a| + 2..] == b
    ensures Groups(s) == FillUp(GroupsIn(a), GroupsIn(b))
  {
  }

  lemma CompressedGroups(left: seq<string>, right: seq<string>)
    requires GroupTexts(left) && GroupTexts(right) && |left| + |right| <= 8
    ensures Groups(Join(left, ':') + "::" + Join(right, ':')) ==
            Some(left + ZeroTexts(8 - |left| - |right|) + right)
  {
    var a, b := Join(left, ':'), Join(right, ':');
    FindInJoin(left, "::" + b);
    Associate(a, "::", b);
    DoubleFirst(b);
    GroupsBack(left);
    GroupsBack(right);
    HalvesFound(a + "::" + b, a, b);
  }

  lemma DoubleFirst(b: string)
    ensures FindDouble("::" + b) == 0
  {
  }

  lemma {:induction false} ZerosMean(n: nat)
    ensures GroupTexts(ZeroTexts(n)) && Values(ZeroTexts(n)) == Zeros16(n)
  {
    if n > 0 {
      ZerosMean(n - 1);
      assert ZeroTexts(n)[..n - 1] == ZeroTexts(n - 1);
      assert "0"[..0] == "";
      assert HexValue("0") == 0;
    }
  }

  lemma PlainRead(w: Written)
    requires ValidForm(w) && w.quad.None?
    ensures ReadGroups(Body(w)) == Some(Number(Meant(w)))
  {
    if w.right.None? {
      FullGroups(w.left);
      assert Values(w.left) + [] == Values(w.left);
    } else {
      var right := w.right.value;
      var zeros := ZeroTexts(8 - |w.left| - |right|);
      CompressedGroups(w.left, right);
      ZerosMean(|zeros|);
      ValuesConcat(w.left, zeros);
      ValuesConcat(w.left + zeros, right);
      assert Values(w.left) + Zeros16(|zeros|) + Values(right) + [] ==
             Values(w.left) + Zeros16(|zeros|) + Values(right);
    }
  }

  /** Every way of writing an address is read as the number that its eight groups make. */
  lemma EveryFormRead(w: Written)
    requires ValidForm(w)
    ensures ReadIpv6(Text(w)) == Some(Number(Meant(w)))
  {
    var lower := LowerForm(w);
    LowerText(w);
    LowerMeans(w);
    ZoneCut(lower);
    Expanded(lower);
    PlainFormMeans(lower);
    PlainRead(PlainForm(lower));
  }

  // ----- the characters by name --------------------------------------------

  const SMALL := "abcdefghijklmnopqrstuvwxyz"
  const LARGE := "ABCDEFGHIJKLMNOPQRSTUVWXYZ"

  /** The hexadecimal digits and what they are worth. */
  lemma HexDigitExact(c: char)
    ensures IsHexDigit(c) <==> c in "0123456789abcdefABCDEF"
    ensures forall n :: 0 <= n < 16 ==> "0123456789abcdef"[n] == c ==> HexDigitValue(c) == n
  {
  }

  /** Large letters become small ones, and nothing else changes. */
  lemma LowerExact(c: char)
    ensures forall n :: 0 <= n < 26 ==> LARGE[n] == c ==> LowerChar(c) == SMALL[n]
    ensures c !in LARGE ==> LowerChar(c) == c
  {
    if 'A' <= c <= 'Z' {
      assert LARGE[c as int - 'A' as int] == c;
    }
  }
}
