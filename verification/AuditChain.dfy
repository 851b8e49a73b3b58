/**
 The hash-linked log of administrative actions. The hash is any function from byte
 strings to byte strings; texts are their UTF-8 bytes.
 */
module AuditChain {
  import opened Common

  type Byte = x: int | 0 <= x < 256
  type Bytes = seq<Byte>

  /** A u64 counts fewer records than this, and no list in memory has more. */
  const U64_LIMIT := 0x1_0000_0000_0000_0000

  const SEPARATOR: Byte := 0x1f

  /** The hash of no record: sixty-four zeros. */
  function Genesis(): Bytes {
    seq(64, i => '0' as int)
  }

  datatype Record =
    Record(sequence: nat, actor: Bytes, action: Bytes, timestamp: Bytes, prevHash: Bytes, hash: Bytes)

  /** The k low bytes of n, the lowest first. */
  function LittleEndian(n: nat, k: nat): (r: Bytes)
    ensures |r| == k
  {
    if k == 0 then [] else [n % 256] + LittleEndian(n / 256, k - 1)
  }

  function Fields(actor: Bytes, action: Bytes, timestamp: Bytes, prevHash: Bytes): Bytes {
    actor + ([SEPARATOR] + (action + ([SEPARATOR] + (timestamp + ([SEPARATOR] + prevHash)))))
  }

  function Preimage(sequence: nat, actor: Bytes, action: Bytes, timestamp: Bytes, prevHash: Bytes): Bytes {
    LittleEndian(sequence, 8) + Fields(actor, action, timestamp, prevHash)
  }

  /** The hash of a record's sequence number, actor, action, timestamp and previous hash. */
  type AuditHash = (nat, Bytes, Bytes, Bytes, Bytes) -> Bytes

  function ComputeAuditHash(h: Bytes -> Bytes): AuditHash {
    (sequence: nat, actor: Bytes, action: Bytes, timestamp: Bytes, prevHash: Bytes) =>
      h(Preimage(sequence, actor, action, timestamp, prevHash))
  }

  function HashOf(hash: AuditHash, r: Record): Bytes {
    hash(r.sequence, r.actor, r.action, r.timestamp, r.prevHash)
  }

  /** The record that append_audit_record adds. */
  function NextRecord(hash: AuditHash, chain: seq<Record>, actor: Bytes, action: Bytes, timestamp: Bytes): Record {
    var sequence := if chain == [] then 0 else chain[|chain| - 1].sequence + 1;
    var prevHash := HashBefore(chain, |chain|);
    Record(sequence, actor, action, timestamp, prevHash, hash(sequence, actor, action, timestamp, prevHash))
  }

  function HashBefore(chain: seq<Record>, i: nat): Bytes
    requires i <= |chain|
  {
    if i == 0 then Genesis() else chain[i - 1].hash
  }

  class AuditLog {
    var chain: seq<Record>

    constructor ()
      ensures chain == []
    {
      chain := [];
    }

    method Append(hash: AuditHash, actor: Bytes, action: Bytes, timestamp: Bytes) returns (record: Record)
      modifies this
      ensures record == NextRecord(hash, old(chain), actor, action, timestamp)
      ensures chain == old(chain) + [record]
    {
      var sequence := 0;
      var prevHash := Genesis();
      if |chain| > 0 {
        sequence := chain[|chain| - 1].sequence + 1;
        prevHash := chain[|chain| - 1].hash;
      }
      record := Record(sequence, actor, action, timestamp, prevHash,
                       hash(sequence, actor, action, timestamp, prevHash));
      chain := chain + [record];
    }
  }

  // ----- verification ------------------------------------------------------

  datatype Flaw = SequenceMismatch | LinkBroken | HashMismatch

  /** What the check of one record says, given its place and the hash before it. */
  function FlawOf(hash: AuditHash, r: Record, idx: nat, expectedPrev: Bytes): Option<Flaw> {
    if r.sequence != idx then Some(SequenceMismatch)
    else if r.prevHash != expectedPrev then Some(LinkBroken)
    else if r.hash != HashOf(hash, r) then Some(HashMismatch)
    else None
  }

  ghost predicate GoodAt(hash: AuditHash, chain: seq<Record>, i: nat)
    requires i < |chain|
  {
    FlawOf(hash, chain[i], i, HashBefore(chain, i)) == None
  }

  ghost predicate Accepted(hash: AuditHash, chain: seq<Record>) {
    forall i :: 0 <= i < |chain| ==> GoodAt(hash, chain, i)
  }

  datatype Verdict = Ok | Err(flaw: Flaw, idx: nat, sequence: nat)

  method CheckRecord(hash: AuditHash, record: Record, idx: nat, expectedPrev: Bytes) returns (flaw: Option<Flaw>)
    ensures flaw == FlawOf(hash, record, idx, expectedPrev)
  {
    if record.sequence != idx {
      return Some(SequenceMismatch);
    }
    if record.prevHash != expectedPrev {
      return Some(LinkBroken);
    }
    var expectedHash := hash(record.sequence, record.actor, record.action, record.timestamp, record.prevHash);
    if record.hash != expectedHash {
      return Some(HashMismatch);
    }
    return None;
  }

  /** Reports the first record that is wrong, and what is. */
  method VerifyAuditChain(hash: AuditHash, chain: seq<Record>) returns (verdict: Verdict)
    ensures verdict.Ok? <==> Accepted(hash, chain)
    ensures verdict.Err? ==>
      && verdict.idx < |chain| && verdict.sequence == chain[verdict.idx].sequence
      && (forall i :: 0 <= i < verdict.idx ==> GoodAt(hash, chain, i))
      && FlawOf(hash, chain[verdict.idx], verdict.idx, HashBefore(chain, verdict.idx)) == Some(verdict.flaw)
  {
    var expectedPrev := Genesis();
    for idx := 0 to |chain|
      invariant expectedPrev == HashBefore(chain, idx)
      invariant forall i :: 0 <= i < idx ==> GoodAt(hash, chain, i)
    {
      var record := chain[idx];
      var flaw := CheckRecord(hash, record, idx, expectedPrev);
      if flaw.Some? {
        assert !GoodAt(hash, chain, idx);
        return Err(flaw.value, idx, record.sequence);
      }
      expectedPrev := record.hash;
    }
    return Ok;
  }

  lemma GoodFacts(hash: AuditHash, chain: seq<Record>, i: nat)
    requires i < |chain| && Accepted(hash, chain)
    ensures chain[i].sequence == i && chain[i].prevHash == HashBefore(chain, i)
    ensures chain[i].hash == HashOf(hash, chain[i])
  {
    assert GoodAt(hash, chain, i);
  }

  lemma AcceptedPrefix(hash: AuditHash, chain: seq<Record>, n: nat)
    requires n <= |chain| && Accepted(hash, chain)
    ensures Accepted(hash, chain[..n])
  {
    forall i | 0 <= i < n
      ensures GoodAt(hash, chain[..n], i)
    {
      assert GoodAt(hash, chain, i);
      assert HashBefore(chain[..n], i) == HashBefore(chain, i);
    }
  }

  lemma AcceptedAppend(hash: AuditHash, chain: seq<Record>, r: Record)
    requires Accepted(hash, chain) && FlawOf(hash, r, |chain|, HashBefore(chain, |chain|)) == None
    ensures Accepted(hash, chain + [r])
  {
    var after := chain + [r];
    forall i | 0 <= i < |after|
      ensures GoodAt(hash, after, i)
    {
      assert HashBefore(after, i) == HashBefore(chain, i);
      assert i < |chain| ==> GoodAt(hash, chain, i);
    }
  }

  /** Appending keeps a chain acceptable. */
  lemma AppendAccepted(hash: AuditHash, chain: seq<Record>, actor: Bytes, action: Bytes, timestamp: Bytes)
    requires Accepted(hash, chain)
    ensures Accepted(hash, chain + [NextRecord(hash, chain, actor, action, timestamp)])
  {
    if chain != [] {
      GoodFacts(hash, chain, |chain| - 1);
    }
    AcceptedAppend(hash, chain, NextRecord(hash, chain, actor, action, timestamp));
  }

  datatype Action = Action(actor: Bytes, action: Bytes, timestamp: Bytes)

  function Logged(hash: AuditHash, actions: seq<Action>): seq<Record> {
    if actions == [] then []
    else
      var before, last := Logged(hash, actions[..|actions| - 1]), actions[|actions| - 1];
      before + [NextRecord(hash, before, last.actor, last.action, last.timestamp)]
  }

  /** Every chain built by appends is accepted, whatever the hash. */
  lemma {:induction false} LogAccepted(hash: AuditHash, actions: seq<Action>)
    ensures Accepted(hash, Logged(hash, actions))
    decreases actions
  {
    if actions != [] {
      var last := actions[|actions| - 1];
      LogAccepted(hash, actions[..|actions| - 1]);
      AppendAccepted(hash, Logged(hash, actions[..|actions| - 1]), last.actor, last.action, last.timestamp);
    }
  }

  // ----- deletion and reordering -------------------------------------------

  /** The records of the chain at the given places, in the given order. */
  function Picked(chain: seq<Record>, places: seq<nat>): (r: seq<Record>)
    requires forall k :: 0 <= k < |places| ==> places[k] < |chain|
    ensures |r| == |places|
  {
    seq(|places|, k requires 0 <= k < |places| => chain[places[k]])
  }

  /**
   Whatever the hash, of all selections and reorderings of an accepted chain exactly its
   beginnings are accepted: deleting any record but the last ones, repeating or moving one
   shows.
   */
  lemma OnlyBeginningsAccepted(hash: AuditHash, chain: seq<Record>, places: seq<nat>)
    requires Accepted(hash, chain)
    requires forall k :: 0 <= k < |places| ==> places[k] < |chain|
    ensures Accepted(hash, Picked(chain, places)) <==> forall k :: 0 <= k < |places| ==> places[k] == k
    ensures Accepted(hash, Picked(chain, places)) ==> |places| <= |chain| && Picked(chain, places) == chain[..|places|]
  {
    var picked := Picked(chain, places);
    if Accepted(hash, picked) {
      forall k | 0 <= k < |places|
        ensures places[k] == k
      {
        GoodFacts(hash, picked, k);
        GoodFacts(hash, chain, places[k]);
      }
    }
    if forall k :: 0 <= k < |places| ==> places[k] == k {
      assert |places| > 0 ==> places[|places| - 1] == |places| - 1;
      assert picked == chain[..|places|];
      AcceptedPrefix(hash, chain, |places|);
    }
  }

  // ----- modification ------------------------------------------------------

  function Pow256(k: nat): nat {
    if k == 0 then 1 else 256 * Pow256(k - 1)
  }

  lemma {:induction false} LittleEndianInjective(a: nat, b: nat, k: nat)
    requires a < Pow256(k) && b < Pow256(k) && LittleEndian(a, k) == LittleEndian(b, k)
    ensures a == b
    decreases k
  {
    if k > 0 {
      var x, y := LittleEndian(a, k), LittleEndian(b, k);
      assert x[0] == a % 256 && y[0] == b % 256;
      assert x[1..] == LittleEndian(a / 256, k - 1) && y[1..] == LittleEndian(b / 256, k - 1);
      LittleEndianInjective(a / 256, b / 256, k - 1);
    }
  }

  lemma U64Bytes()
    ensures Pow256(8) == U64_LIMIT
  {
    assert Pow256(4) == 0x1_0000_0000;
    assert Pow256(8) == 256 * (256 * (256 * (256 * Pow256(4))));
  }

  /** A text without the separator ends where the separator comes. */
  lemma SeparatorSplits(a: Bytes, s: Bytes, b: Bytes, t: Bytes)
    requires SEPARATOR !in a && SEPARATOR !in b
    requires a + ([SEPARATOR] + s) == b + ([SEPARATOR] + t)
    ensures a == b && s == t
  {
    var x, y := a + ([SEPARATOR] + s), b + ([SEPARATOR] + t);
    assert x[|a|] == SEPARATOR && y[|b|] == SEPARATOR;
    assert |a| == |b|;
    assert x[..|a|] == a && y[..|b|] == b;
    assert x[|a| + 1..] == s && y[|b| + 1..] == t;
  }

  /** No text of the record holds a separator. */
  predicate Clean(r: Record) {
    SEPARATOR !in r.actor && SEPARATOR !in r.action && SEPARATOR !in r.timestamp
  }

  ghost predicate AllClean(chain: seq<Record>) {
    forall i :: 0 <= i < |chain| ==> Clean(chain[i])
  }

  function FieldsOf(r: Record): Bytes {
    Fields(r.actor, r.action, r.timestamp, r.prevHash)
  }

  function PreimageOf(r: Record): Bytes {
    Preimage(r.sequence, r.actor, r.action, r.timestamp, r.prevHash)
  }

  function Separators(s: Bytes): (n: nat)
    ensures n == 0 <==> SEPARATOR !in s
  {
    if s == [] then 0 else (if s[0] == SEPARATOR then 1 else 0) + Separators(s[1..])
  }

  lemma {:induction false} SeparatorsConcat(s: Bytes, t: Bytes)
    ensures Separators(s + t) == Separators(s) + Separators(t)
    decreases s
  {
    if s == [] {
      assert s + t == t;
    } else {
      assert (s + t)[0] == s[0] && (s + t)[1..] == s[1..] + t;
      SeparatorsConcat(s[1..], t);
    }
  }

  /** One text and the separator after it. */
  lemma SeparatorsOfText(s: Bytes, t: Bytes)
    ensures Separators(s + ([SEPARATOR] + t)) == Separators(s) + 1 + Separators(t)
  {
    SeparatorsConcat(s, [SEPARATOR] + t);
    SeparatorsConcat([SEPARATOR], t);
    assert Separators([SEPARATOR]) == 1 + Separators([]);
  }

  lemma SeparatorsOfFields(r: Record)
    ensures
      Separators(FieldsOf(r)) ==
      Separators(r.actor) + Separators(r.action) + Separators(r.timestamp) + 3 + Separators(r.prevHash)
  {
    var third := r.timestamp + ([SEPARATOR] + r.prevHash);
    SeparatorsOfText(r.actor, r.action + ([SEPARATOR] + third));
    SeparatorsOfText(r.action, third);
    SeparatorsOfText(r.timestamp, r.prevHash);
  }

  /** Bytes after a clean record's number are those of no record whose previous hash has as few separators. */
  lemma FieldsInjective(r: Record, s: Record)
    requires Clean(r) && FieldsOf(r) == FieldsOf(s) && Separators(r.prevHash) <= Separators(s.prevHash)
    ensures r.actor == s.actor && r.action == s.action && r.timestamp == s.timestamp && r.prevHash == s.prevHash
  {
    SeparatorsOfFields(r);
    SeparatorsOfFields(s);
    var r3, s3 := r.timestamp + ([SEPARATOR] + r.prevHash), s.timestamp + ([SEPARATOR] + s.prevHash);
    SeparatorSplits(r.actor, r.action + ([SEPARATOR] + r3), s.actor, s.action + ([SEPARATOR] + s3));
    SeparatorSplits(r.action, r3, s.action, s3);
    SeparatorSplits(r.timestamp, r.prevHash, s.timestamp, s.prevHash);
  }

  lemma PreimageParts(r: Record, s: Record)
    requires PreimageOf(r) == PreimageOf(s)
    ensures FieldsOf(r) == FieldsOf(s)
    ensures r.sequence < U64_LIMIT && s.sequence < U64_LIMIT ==> r.sequence == s.sequence
  {
    var x, y := LittleEndian(r.sequence, 8), LittleEndian(s.sequence, 8);
    var f, g := FieldsOf(r), FieldsOf(s);
    assert (x + f)[..8] == x && (x + f)[8..] == f && (y + g)[..8] == y && (y + g)[8..] == g;
    U64Bytes();
    if r.sequence < U64_LIMIT && s.sequence < U64_LIMIT {
      LittleEndianInjective(r.sequence, s.sequence, 8);
    }
  }

  ghost predicate Injective(h: Bytes -> Bytes) {
    forall a, b :: h(a) == h(b) ==> a == b
  }

  /** So it is with digests written as hexadecimal digits. */
  ghost predicate WithoutSeparators(h: Bytes -> Bytes) {
    forall a :: SEPARATOR !in h(a)
  }

  lemma SameHashSamePreimage(h: Bytes -> Bytes, r: Record, s: Record)
    requires Injective(h) && HashOf(ComputeAuditHash(h), r) == HashOf(ComputeAuditHash(h), s)
    ensures PreimageOf(r) == PreimageOf(s)
  {
    assert h(PreimageOf(r)) == h(PreimageOf(s));
  }

  lemma LinkWithoutSeparators(h: Bytes -> Bytes, chain: seq<Record>, i: nat)
    requires WithoutSeparators(h) && Accepted(ComputeAuditHash(h), chain) && i < |chain|
    ensures Separators(chain[i].prevHash) == 0
  {
    GoodFacts(ComputeAuditHash(h), chain, i);
    if i > 0 {
      GoodFacts(ComputeAuditHash(h), chain, i - 1);
      assert chain[i - 1].hash == h(PreimageOf(chain[i - 1]));
    }
  }

  /** An accepted chain that ends with the same hash; no list in memory is longer than a u64 counts. */
  ghost predicate SameEnd(hash: AuditHash, a: seq<Record>, b: seq<Record>) {
    && a != [] && b != [] && |a| <= U64_LIMIT && |b| <= U64_LIMIT
    && Accepted(hash, a) && Accepted(hash, b) && a[|a| - 1].hash == b[|b| - 1].hash
  }

  lemma SameEndSameRecord(h: Bytes -> Bytes, a: seq<Record>, b: seq<Record>)
    requires Injective(h) && WithoutSeparators(h) && SameEnd(ComputeAuditHash(h), a, b) && Clean(a[|a| - 1])
    ensures |a| == |b| && a[|a| - 1] == b[|b| - 1]
  {
    var hash, i, j := ComputeAuditHash(h), |a| - 1, |b| - 1;
    GoodFacts(hash, a, i);
    GoodFacts(hash, b, j);
    SameHashSamePreimage(h, a[i], b[j]);
    PreimageParts(a[i], b[j]);
    LinkWithoutSeparators(h, a, i);
    FieldsInjective(a[i], b[j]);
  }

  lemma {:induction false} SameEndSameChain(h: Bytes -> Bytes, a: seq<Record>, b: seq<Record>)
    requires Injective(h) && WithoutSeparators(h) && AllClean(a) && SameEnd(ComputeAuditHash(h), a, b)
    ensures a == b
    decreases a
  {
    var hash, m := ComputeAuditHash(h), |a| - 1;
    SameEndSameRecord(h, a, b);
    assert a == a[..m] + [a[m]] && b == b[..m] + [b[m]];
    if m > 0 {
      GoodFacts(hash, a, m);
      GoodFacts(hash, b, m);
      AcceptedPrefix(hash, a, m);
      AcceptedPrefix(hash, b, m);
      SameEndSameChain(h, a[..m], b[..m]);
    }
  }

  // ----- what a separator hides --------------------------------------------

  function Until(s: Bytes): (n: nat)
    requires SEPARATOR in s
    ensures n < |s| && s[n] == SEPARATOR
  {
    if s[0] == SEPARATOR then 0 else 1 + Until(s[1..])
  }

  /** The record with a separator of a text taken for one between two texts. */
  function Moved(r: Record): Record
    requires !Clean(r)
  {
    if SEPARATOR in r.actor then
      var n := Until(r.actor);
      r.(actor := r.actor[..n], action := r.actor[n + 1..] + ([SEPARATOR] + r.action))
    else if SEPARATOR in r.action then
      var n := Until(r.action);
      r.(actor := r.actor + ([SEPARATOR] + r.action[..n]), action := r.action[n + 1..])
    else
      var n := Until(r.timestamp);
      r.(action := r.action + ([SEPARATOR] + r.timestamp[..n]), timestamp := r.timestamp[n + 1..])
  }

  lemma Regroup(a: Bytes, b: Bytes, c: Bytes)
    ensures (a + ([SEPARATOR] + b)) + ([SEPARATOR] + c) == a + ([SEPARATOR] + (b + ([SEPARATOR] + c)))
  {
  }

  lemma SplitAt(s: Bytes)
    requires SEPARATOR in s
    ensures s == s[..Until(s)] + ([SEPARATOR] + s[Until(s) + 1..])
  {
  }

  lemma MovedDiffers(r: Record)
    requires !Clean(r)
    ensures Moved(r) != r && Moved(r).hash == r.hash && Moved(r).sequence == r.sequence
  {
    assert SEPARATOR in r.actor ==> |Moved(r).actor| < |r.actor|;
    assert SEPARATOR !in r.actor && SEPARATOR in r.action ==> |Moved(r).action| < |r.action|;
    assert SEPARATOR !in r.actor && SEPARATOR !in r.action ==> |Moved(r).timestamp| < |r.timestamp|;
  }

  lemma SplitActor(x: Bytes, y: Bytes, action: Bytes, timestamp: Bytes, prevHash: Bytes)
    ensures
      Fields(x + ([SEPARATOR] + y), action, timestamp, prevHash) ==
      Fields(x, y + ([SEPARATOR] + action), timestamp, prevHash)
  {
    var third := timestamp + ([SEPARATOR] + prevHash);
    Regroup(x, y, action + ([SEPARATOR] + third));
    Regroup(y, action, third);
  }

  lemma SplitAction(actor: Bytes, x: Bytes, y: Bytes, timestamp: Bytes, prevHash: Bytes)
    ensures
      Fields(actor, x + ([SEPARATOR] + y), timestamp, prevHash) ==
      Fields(actor + ([SEPARATOR] + x), y, timestamp, prevHash)
  {
    var third := timestamp + ([SEPARATOR] + prevHash);
    Regroup(x, y, third);
    Regroup(actor, x, y + ([SEPARATOR] + third));
  }

  lemma SplitTimestamp(actor: Bytes, action: Bytes, x: Bytes, y: Bytes, prevHash: Bytes)
    ensures
      Fields(actor, action, x + ([SEPARATOR] + y), prevHash) ==
      Fields(actor, action + ([SEPARATOR] + x), y, prevHash)
  {
    Regroup(x, y, prevHash);
    Regroup(action, x, y + ([SEPARATOR] + prevHash));
  }

  lemma MovedKeepsFields(r: Record)
    requires !Clean(r)
    ensures FieldsOf(Moved(r)) == FieldsOf(r)
  {
    if SEPARATOR in r.actor {
      var n := Until(r.actor);
      SplitAt(r.actor);
      SplitActor(r.actor[..n], r.actor[n + 1..], r.action, r.timestamp, r.prevHash);
    } else if SEPARATOR in r.action {
      var n := Until(r.action);
      SplitAt(r.action);
      SplitAction(r.actor, r.action[..n], r.action[n + 1..], r.timestamp, r.prevHash);
    } else {
      var n := Until(r.timestamp);
      SplitAt(r.timestamp);
      SplitTimestamp(r.actor, r.action, r.timestamp[..n], r.timestamp[n + 1..], r.prevHash);
    }
  }

  /** It is another record, and the hashed bytes are the same. */
  lemma MovedKeepsPreimage(r: Record)
    requires !Clean(r)
    ensures Moved(r) != r && Moved(r).hash == r.hash && Moved(r).sequence == r.sequence
    ensures PreimageOf(Moved(r)) == PreimageOf(r)
  {
    MovedDiffers(r);
    MovedKeepsFields(r);
  }

  /** Whatever the hash, a record whose text holds a separator can be changed, and nothing shows. */
  lemma SeparatorHidesChange(h: Bytes -> Bytes, chain: seq<Record>, i: nat)
    requires Accepted(ComputeAuditHash(h), chain) && i < |chain| && !Clean(chain[i])
    ensures
      var changed := chain[i := Moved(chain[i])];
      && changed[i] != chain[i] && Accepted(ComputeAuditHash(h), changed)
      && changed[|chain| - 1].hash == chain[|chain| - 1].hash
  {
    var hash, changed := ComputeAuditHash(h), chain[i := Moved(chain[i])];
    MovedKeepsPreimage(chain[i]);
    forall k | 0 <= k < |changed|
      ensures GoodAt(hash, changed, k)
    {
      assert GoodAt(hash, chain, k);
      assert HashBefore(changed, k) == HashBefore(chain, k);
      assert HashOf(hash, changed[k]) == h(PreimageOf(changed[k]));
      assert HashOf(hash, chain[k]) == h(PreimageOf(chain[k]));
    }
  }

  /**
   With a hash that has no collisions and writes no separators, the last hash of an accepted
   chain commits to the whole chain exactly if no text of the chain holds a separator. Of the
   other chain nothing is asked but that it is accepted.
   */
  lemma LastHashCommits(h: Bytes -> Bytes, a: seq<Record>)
    requires Injective(h) && WithoutSeparators(h)
    requires a != [] && |a| <= U64_LIMIT && Accepted(ComputeAuditHash(h), a)
    ensures (forall b :: SameEnd(ComputeAuditHash(h), a, b) ==> a == b) <==> AllClean(a)
  {
    if AllClean(a) {
      forall b | SameEnd(ComputeAuditHash(h), a, b)
        ensures a == b
      {
        SameEndSameChain(h, a, b);
      }
    } else {
      var i :| 0 <= i < |a| && !Clean(a[i]);
      SeparatorHidesChange(h, a, i);
      assert SameEnd(ComputeAuditHash(h), a, a[i := Moved(a[i])]);
    }
  }

  ghost predicate Replaceable(hash: AuditHash, chain: seq<Record>, i: nat, r: Record)
    requires i < |chain|
  {
    Accepted(hash, chain[i := r])
  }

  lemma Replaced(h: Bytes -> Bytes, chain: seq<Record>, i: nat, r: Record)
    requires Injective(h) && Accepted(ComputeAuditHash(h), chain) && i < |chain| - 1 && Clean(chain[i])
    requires Replaceable(ComputeAuditHash(h), chain, i, r)
    ensures r == chain[i]
  {
    var hash, changed := ComputeAuditHash(h), chain[i := r];
    GoodFacts(hash, chain, i);
    GoodFacts(hash, changed, i);
    GoodFacts(hash, chain, i + 1);
    GoodFacts(hash, changed, i + 1);
    assert HashBefore(changed, i) == HashBefore(chain, i);
    SameHashSamePreimage(h, chain[i], r);
    PreimageParts(chain[i], r);
    FieldsInjective(chain[i], r);
  }

  /**
   So a record before the last can be replaced by no other one at all, even with a hash
   computed anew, exactly if its texts hold no separator.
   */
  lemma ReplacementShows(h: Bytes -> Bytes, chain: seq<Record>, i: nat)
    requires Injective(h) && Accepted(ComputeAuditHash(h), chain) && i < |chain| - 1
    ensures (forall r :: Replaceable(ComputeAuditHash(h), chain, i, r) <==> r == chain[i]) <==> Clean(chain[i])
  {
    var hash := ComputeAuditHash(h);
    if Clean(chain[i]) {
      assert chain[i := chain[i]] == chain;
      forall r | Replaceable(hash, chain, i, r)
        ensures r == chain[i]
      {
        Replaced(h, chain, i, r);
      }
    } else {
      SeparatorHidesChange(h, chain, i);
      assert Replaceable(hash, chain, i, Moved(chain[i])) && Moved(chain[i]) != chain[i];
    }
  }

  // ----- what is recorded and hashed ---------------------------------------

  /** Record i of a log is about action i. */
  lemma {:induction false} LogRecords(hash: AuditHash, actions: seq<Action>)
    ensures |Logged(hash, actions)| == |actions|
    ensures forall i :: 0 <= i < |actions| ==>
      var r := Logged(hash, actions)[i];
      r.actor == actions[i].actor && r.action == actions[i].action && r.timestamp == actions[i].timestamp
    decreases actions
  {
    if actions != [] {
      LogRecords(hash, actions[..|actions| - 1]);
    }
  }

  /** What k bytes are worth, the lowest first. */
  function Worth(bytes: Bytes): nat {
    if bytes == [] then 0 else bytes[0] + 256 * Worth(bytes[1..])
  }

  lemma {:induction false} LittleEndianWorth(n: nat, k: nat)
    requires n < Pow256(k)
    ensures Worth(LittleEndian(n, k)) == n
    decreases k
  {
    if k > 0 {
      LittleEndianWorth(n / 256, k - 1);
      assert LittleEndian(n, k)[1..] == LittleEndian(n / 256, k - 1);
    }
  }

  /** The part of the bytes from i on. */
  predicate PartAt(bytes: Bytes, i: nat, part: Bytes) {
    i + |part| <= |bytes| && bytes[i..i + |part|] == part
  }

  /** The hashed bytes: eight of the number, the three texts each with a separator after it, the last hash. */
  lemma PreimageSpelled(sequence: nat, actor: Bytes, action: Bytes, timestamp: Bytes, prevHash: Bytes)
    requires sequence < U64_LIMIT
    ensures
      var bytes := Preimage(sequence, actor, action, timestamp, prevHash);
      var i := 8 + |actor|;
      var j := i + 1 + |action|;
      var k := j + 1 + |timestamp|;
      && |bytes| == k + 1 + |prevHash| && Worth(bytes[..8]) == sequence
      && PartAt(bytes, 8, actor) && bytes[i] == 0x1f && PartAt(bytes, i + 1, action) && bytes[j] == 0x1f
      && PartAt(bytes, j + 1, timestamp) && bytes[k] == 0x1f && PartAt(bytes, k + 1, prevHash)
  {
    var bytes := Preimage(sequence, actor, action, timestamp, prevHash);
    U64Bytes();
    LittleEndianWorth(sequence, 8);
    assert bytes[..8] == LittleEndian(sequence, 8);
  }

  /** The first record is linked to sixty-four zeros. */
  lemma FirstLink(hash: AuditHash, actions: seq<Action>)
    requires actions != []
    ensures
      var link := Logged(hash, actions)[0].prevHash;
      |link| == 64 && forall i :: 0 <= i < 64 ==> link[i] == 48
  {
    LogAccepted(hash, actions);
    LogRecords(hash, actions);
    GoodFacts(hash, Logged(hash, actions), 0);
  }
}
