/**
 The store of answers by idempotency key, with a time to live: lookups and purges
 remove what has expired.
 */
module Idempotency {
  import opened Common
  import opened Numerals
  import opened Texts

  datatype Cached = Cached(status: int, body: string, recordedAt: int, payloadHash: string)

  datatype Answer = Hit(response: Cached) | Miss | PayloadMismatch

  /** elapsed() < ttl; a time in the future counts as no time ago. */
  predicate Live(c: Cached, now: int, ttl: nat) {
    Max(now - c.recordedAt, 0) < ttl
  }

  function AnswerOf(found: Option<Cached>, payloadHash: string): Answer {
    match found
    case None => Miss
    case Some(c) => if c.payloadHash != payloadHash then PayloadMismatch else Hit(c)
  }

  function LiveEntry(inner: map<string, Cached>, key: string, now: int, ttl: nat): Option<Cached> {
    if key in inner && Live(inner[key], now, ttl) then Some(inner[key]) else None
  }

  function Purged(inner: map<string, Cached>, now: int, ttl: nat): map<string, Cached> {
    map key | key in inner && Live(inner[key], now, ttl) :: inner[key]
  }

  /** What a lookup leaves: it removes the entry if that has expired. */
  function LookedUp(inner: map<string, Cached>, key: string, now: int, ttl: nat): map<string, Cached> {
    if key in inner && !Live(inner[key], now, ttl) then inner - {key} else inner
  }

  class IdempotencyStore {
    var inner: map<string, Cached>
    const ttl: nat

    constructor (ttl: nat)
      ensures this.ttl == ttl && inner == map[]
    {
      this.ttl, inner := ttl, map[];
    }

    method Get(key: string, payloadHash: string, now: int) returns (answer: Answer)
      modifies this
      ensures answer == AnswerOf(LiveEntry(old(inner), key, now, ttl), payloadHash)
      ensures inner == LookedUp(old(inner), key, now, ttl)
    {
      if key in inner {
        var entry := inner[key];
        if Max(now - entry.recordedAt, 0) < ttl {
          if entry.payloadHash != payloadHash {
            return PayloadMismatch;
          }
          return Hit(entry);
        }
        inner := inner - {key};
      }
      return Miss;
    }

    method Insert(key: string, status: int, body: string, payloadHash: string, now: int)
      modifies this
      ensures inner == old(inner)[key := Cached(status, body, now, payloadHash)]
    {
      inner := inner[key := Cached(status, body, now, payloadHash)];
    }

    method PurgeExpired(now: int)
      modifies this
      ensures inner == Purged(old(inner), now, ttl)
    {
      inner := map key | key in inner && Live(inner[key], now, ttl) :: inner[key];
    }
  }

  // ----- runs --------------------------------------------------------------

  datatype Call = Insert(at: int, key: string, status: int, body: string, hash: string)
                | Get(at: int, key: string, hash: string)
                | Purge(at: int)

  function Apply(inner: map<string, Cached>, call: Call, ttl: nat): map<string, Cached> {
    match call
    case Insert(at, key, status, body, hash) => inner[key := Cached(status, body, at, hash)]
    case Get(at, key, hash) => LookedUp(inner, key, at, ttl)
    case Purge(at) => Purged(inner, at, ttl)
  }

  /** The answers of the lookups, in order. */
  function Answers(inner: map<string, Cached>, calls: seq<Call>, ttl: nat): seq<Answer>
    decreases calls
  {
    if calls == [] then []
    else
      (if calls[0].Get? then [AnswerOf(LiveEntry(inner, calls[0].key, calls[0].at, ttl), calls[0].hash)] else []) +
      Answers(Apply(inner, calls[0], ttl), calls[1..], ttl)
  }

  predicate InOrder(calls: seq<Call>) {
    forall i, j :: 0 <= i < j < |calls| ==> calls[i].at <= calls[j].at
  }

  /** The last insert of the key, if there is one. */
  function LastInsert(calls: seq<Call>, key: string): Option<Cached> {
    if calls == [] then None
    else
      var last := calls[|calls| - 1];
      if last.Insert? && last.key == key then Some(Cached(last.status, last.body, last.at, last.hash))
      else LastInsert(calls[..|calls| - 1], key)
  }

  /** The answer of an ideal store: the last insert of the key, within its time to live. */
  function Ideal(past: seq<Call>, key: string, hash: string, now: int, ttl: nat): Answer {
    match LastInsert(past, key)
    case None => Miss
    case Some(c) => if Live(c, now, ttl) then AnswerOf(Some(c), hash) else Miss
  }

  function IdealAnswers(past: seq<Call>, calls: seq<Call>, ttl: nat): seq<Answer>
    decreases calls
  {
    if calls == [] then []
    else
      (if calls[0].Get? then [Ideal(past, calls[0].key, calls[0].hash, calls[0].at, ttl)] else []) +
      IdealAnswers(past + [calls[0]], calls[1..], ttl)
  }

  /** The store and the past agree on what is live at a time, and so at any later one. */
  ghost predicate Agree(inner: map<string, Cached>, past: seq<Call>, now: int, ttl: nat) {
    forall key :: AgreeOn(inner, past, key, now, ttl)
  }

  ghost predicate AgreeOn(inner: map<string, Cached>, past: seq<Call>, key: string, now: int, ttl: nat) {
    var last := LastInsert(past, key);
    LiveEntry(inner, key, now, ttl) == if last.Some? && Live(last.value, now, ttl) then last else None
  }

  lemma StaleStays(c: Cached, now: int, later: int, ttl: nat)
    requires now <= later && !Live(c, now, ttl)
    ensures !Live(c, later, ttl)
  {
  }

  lemma LastInsertAppend(past: seq<Call>, call: Call, key: string)
    ensures LastInsert(past + [call], key) ==
            if call.Insert? && call.key == key then Some(Cached(call.status, call.body, call.at, call.hash))
            else LastInsert(past, key)
  {
    assert (past + [call])[..|past|] == past;
  }

  lemma AgreeLater(inner: map<string, Cached>, past: seq<Call>, key: string, now: int, later: int, ttl: nat)
    requires now <= later && AgreeOn(inner, past, key, now, ttl)
    ensures AgreeOn(inner, past, key, later, ttl)
  {
    var last := LastInsert(past, key);
    if key in inner && !Live(inner[key], now, ttl) {
      StaleStays(inner[key], now, later, ttl);
    }
    if last.Some? && !Live(last.value, now, ttl) {
      StaleStays(last.value, now, later, ttl);
    }
  }

  lemma ApplyAgrees(inner: map<string, Cached>, past: seq<Call>, now: int, call: Call, ttl: nat)
    requires now <= call.at && Agree(inner, past, now, ttl)
    ensures Agree(Apply(inner, call, ttl), past + [call], call.at, ttl)
  {
    var after, longer := Apply(inner, call, ttl), past + [call];
    forall key: string
      ensures AgreeOn(after, longer, key, call.at, ttl)
    {
      LastInsertAppend(past, call, key);
      assert AgreeOn(inner, past, key, now, ttl);
      AgreeLater(inner, past, key, now, call.at, ttl);
    }
  }

  /** Lookups at nondecreasing times answer as the ideal store does. */
  lemma {:induction false} AnswersAreIdeal(
      inner: map<string, Cached>, past: seq<Call>, now: int, calls: seq<Call>, ttl: nat)
    requires InOrder(calls) && (calls != [] ==> now <= calls[0].at) && Agree(inner, past, now, ttl)
    ensures Answers(inner, calls, ttl) == IdealAnswers(past, calls, ttl)
    decreases calls
  {
    if calls != [] {
      var call := calls[0];
      ApplyAgrees(inner, past, now, call, ttl);
      AnswersAreIdeal(Apply(inner, call, ttl), past + [call], call.at, calls[1..], ttl);
      if call.Get? {
        assert AgreeOn(inner, past, call.key, now, ttl);
        AgreeLater(inner, past, call.key, now, call.at, ttl);
      }
    }
  }

  function WithoutPurges(calls: seq<Call>): seq<Call> {
    if calls == [] then []
    else (if calls[0].Purge? then [] else [calls[0]]) + WithoutPurges(calls[1..])
  }

  ghost predicate SameInserts(a: seq<Call>, b: seq<Call>) {
    forall key :: LastInsert(a, key) == LastInsert(b, key)
  }

  lemma {:induction false} IdealIgnoresPurges(past: seq<Call>, other: seq<Call>, calls: seq<Call>, ttl: nat)
    requires SameInserts(past, other)
    ensures IdealAnswers(past, calls, ttl) == IdealAnswers(other, WithoutPurges(calls), ttl)
    decreases calls
  {
    if calls != [] {
      var call, rest := calls[0], WithoutPurges(calls[1..]);
      forall key
        ensures LastInsert(past + [call], key) == LastInsert(if call.Purge? then other else other + [call], key)
      {
        LastInsertAppend(past, call, key);
        LastInsertAppend(other, call, key);
      }
      IdealIgnoresPurges(past + [call], if call.Purge? then other else other + [call], calls[1..], ttl);
      assert [] + rest == rest;
      assert ([call] + rest)[1..] == rest;
    }
  }

  lemma {:induction false} StillInOrder(calls: seq<Call>)
    requires InOrder(calls)
    ensures InOrder(WithoutPurges(calls))
    ensures forall i :: 0 <= i < |WithoutPurges(calls)| ==> calls != [] && calls[0].at <= WithoutPurges(calls)[i].at
    decreases calls
  {
    if calls != [] {
      StillInOrder(calls[1..]);
    }
  }

  /** Purges, wherever they run, change no answer. */
  lemma PurgesDoNotShow(calls: seq<Call>, ttl: nat)
    requires InOrder(calls)
    ensures Answers(map[], calls, ttl) == IdealAnswers([], calls, ttl)
    ensures Answers(map[], calls, ttl) == Answers(map[], WithoutPurges(calls), ttl)
  {
    if calls != [] {
      var start := calls[0].at;
      StillInOrder(calls);
      AnswersAreIdeal(map[], [], start, calls, ttl);
      AnswersAreIdeal(map[], [], start, WithoutPurges(calls), ttl);
      IdealIgnoresPurges([], [], calls, ttl);
    }
  }

  // ----- keys --------------------------------------------------------------

  /** A u64. */
  type InvoiceId = n: nat | n < 0x1_0000_0000_0000_0000

  function MakeKey(endpoint: string, invoiceId: InvoiceId, idempotencyKey: string): string {
    endpoint + ([':'] + (Digits(invoiceId) + ([':'] + idempotencyKey)))
  }

  lemma KeyParts(endpoint: string, invoiceId: InvoiceId, idempotencyKey: string)
    requires ':' !in endpoint
    ensures
      var key := MakeKey(endpoint, invoiceId, idempotencyKey);
      var i := IndexOf(key, ':');
      && i < |key| && key[..i] == endpoint
      && var rest := key[i + 1..];
      var j := IndexOf(rest, ':');
      j < |rest| && rest[..j] == Digits(invoiceId) && rest[j + 1..] == idempotencyKey
  {
    var end := [':'] + idempotencyKey;
    Headed(endpoint, Digits(invoiceId) + end);
    Headed(Digits(invoiceId), idempotencyKey);
  }

  /** A text without a colon comes apart from what follows it after a colon. */
  lemma Headed(head: string, rest: string)
    requires ':' !in head
    ensures
      var text := head + ([':'] + rest);
      var i := IndexOf(text, ':');
      i < |text| && text[..i] == head && text[i + 1..] == rest
  {
    IndexFound(head, [':'] + rest, ':');
    var text := head + ([':'] + rest);
    assert text[..|head|] == head && text[|head| + 1..] == rest;
  }

  /** Keys of endpoints without colons never collide. */
  lemma KeysDiffer(e1: string, n1: InvoiceId, k1: string, e2: string, n2: InvoiceId, k2: string)
    requires ':' !in e1 && ':' !in e2
    ensures MakeKey(e1, n1, k1) == MakeKey(e2, n2, k2) <==> e1 == e2 && n1 == n2 && k1 == k2
  {
    KeyParts(e1, n1, k1);
    KeyParts(e2, n2, k2);
    ValueOfDigits(n1);
    ValueOfDigits(n2);
  }

  predicate SameKey(e1: string, n1: InvoiceId, k1: string, e2: string, n2: InvoiceId, k2: string) {
    MakeKey(e1, n1, k1) == MakeKey(e2, n2, k2)
  }

  /** f is e, a colon and an id, and then nothing or a colon and more. */
  predicate ExtendedBy(e: string, f: string, n: InvoiceId) {
    var start := e + ([':'] + Digits(n));
    f == start || start + [':'] <= f
  }

  lemma CutAfter(e: string, x: string, f: string, y: string)
    requires e + x == f + y && |e| <= |f|
    ensures f == e + f[|e|..] && x == f[|e|..] + y
  {
    assert (e + x)[..|e|] == e && (f + y)[..|e|] == f[..|e|];
    assert (e + x)[|e|..] == x && (f + y)[|e|..] == f[|e|..] + y;
  }

  /** A text that reaches a colon begins with what comes before the first one. */
  lemma ColonReached(d: string, x: string, t: string, y: string)
    requires ':' !in d && d + ([':'] + x) == t + ([':'] + y)
    ensures t == d || d + [':'] <= t
  {
    var s, r := d + ([':'] + x), t + ([':'] + y);
    assert s[|d|] == ':' && s[|t|] == r[|t|] == ':';
    assert s[..|d|] == d && r[..|t|] == t;
    if |t| > |d| {
      assert t[..|d| + 1] == r[..|d| + 1] == s[..|d| + 1] == d + [':'];
    }
  }

  lemma SameKeyExtends(e1: string, n1: InvoiceId, k1: string, e2: string, n2: InvoiceId, k2: string)
    requires SameKey(e1, n1, k1, e2, n2, k2) && |e1| <= |e2| && e1 != e2
    ensures ExtendedBy(e1, e2, n1)
  {
    var x, z := Digits(n1) + ([':'] + k1), Digits(n2) + ([':'] + k2);
    CutAfter(e1, [':'] + x, e2, [':'] + z);
    var tail := e2[|e1|..];
    Uncons(x, tail, [':'] + z);
    ColonReached(Digits(n1), k1, tail[1..], z);
    assert e2 == e1 + ([':'] + tail[1..]);
    AppendPrefix(e1, [':'], Digits(n1) + [':'], tail[1..]);
  }

  lemma Uncons(x: string, tail: string, y: string)
    requires tail != "" && [':'] + x == tail + y
    ensures tail == [':'] + tail[1..] && x == tail[1..] + y
  {
    assert ([':'] + x)[0] == (tail + y)[0];
    assert ([':'] + x)[1..] == (tail + y)[1..] == tail[1..] + y;
  }

  lemma AppendPrefix(a: string, b: string, p: string, t: string)
    ensures p <= t ==> a + (b + p) <= a + (b + t)
    ensures forall d :: p == d + [':'] ==> a + (b + p) == (a + (b + d)) + [':']
  {
  }

  lemma ExtendedSameKey(e: string, f: string, n: InvoiceId) returns (k: string)
    requires ExtendedBy(e, f, n)
    ensures SameKey(e, n, k, f, 0, "")
  {
    var start := e + ([':'] + Digits(n));
    var y := [':'] + (Digits(0) + ([':'] + ""));
    var tail := f[|start|..] + y;
    k := tail[1..];
    assert f + y == start + tail && tail == [':'] + k;
    assert start + ([':'] + k) == MakeKey(e, n, k);
  }

  /** Two different endpoints can have a key in common exactly if one of them extends the other by an id. */
  lemma ColonsCollide(e: string, f: string)
    requires e != f
    ensures
      (exists m: InvoiceId, j, n: InvoiceId, k :: SameKey(e, m, j, f, n, k)) <==>
      exists n: InvoiceId :: ExtendedBy(e, f, n) || ExtendedBy(f, e, n)
  {
    if m: InvoiceId, j, n: InvoiceId, k :| SameKey(e, m, j, f, n, k) {
      if |e| <= |f| {
        SameKeyExtends(e, m, j, f, n, k);
      } else {
        SameKeyExtends(f, n, k, e, m, j);
      }
    }
    if n: InvoiceId :| ExtendedBy(e, f, n) || ExtendedBy(f, e, n) {
      if ExtendedBy(e, f, n) {
        var k := ExtendedSameKey(e, f, n);
      } else {
        var k := ExtendedSameKey(f, e, n);
        assert SameKey(e, 0, "", f, n, k);
      }
    }
  }

  // ----- one lookup --------------------------------------------------------

  /** Call j stores an answer under the key, and no later one does. */
  predicate LastOf(past: seq<Call>, key: string, j: nat) {
    && j < |past| && past[j].Insert? && past[j].key == key
    && forall k :: j < k < |past| ==> !(past[k].Insert? && past[k].key == key)
  }

  ghost predicate Stored(past: seq<Call>, key: string) {
    exists j :: 0 <= j < |past| && past[j].Insert? && past[j].key == key
  }

  lemma {:induction false} LastOfExact(past: seq<Call>, key: string, j: nat)
    requires LastOf(past, key, j)
    ensures LastInsert(past, key) == Some(Cached(past[j].status, past[j].body, past[j].at, past[j].hash))
    decreases past
  {
    var n := |past| - 1;
    if j < n {
      LastOfExact(past[..n], key, j);
    }
  }

  lemma {:induction false} StoredExact(past: seq<Call>, key: string)
    ensures LastInsert(past, key).Some? ==> Stored(past, key)
    decreases past
  {
    if past != [] {
      StoredExact(past[..|past| - 1], key);
    }
  }

  lemma IdealCons(past: seq<Call>, calls: seq<Call>, ttl: nat)
    requires calls != []
    ensures IdealAnswers(past, calls, ttl) ==
            IdealOf(past, calls[0], ttl) + IdealAnswers(past + [calls[0]], calls[1..], ttl)
  {
  }

  function IdealOf(past: seq<Call>, call: Call, ttl: nat): seq<Answer> {
    if call.Get? then [Ideal(past, call.key, call.hash, call.at, ttl)] else []
  }

  lemma {:induction false} IdealAppend(past: seq<Call>, calls: seq<Call>, call: Call, ttl: nat)
    ensures IdealAnswers(past, calls + [call], ttl) == IdealAnswers(past, calls, ttl) + IdealOf(past + calls, call, ttl)
    decreases calls
  {
    if calls == [] {
      assert past + [] == past && [] + [call] == [call];
      IdealCons(past, [call], ttl);
    } else {
      assert (calls + [call])[1..] == calls[1..] + [call];
      assert past + calls == (past + [calls[0]]) + calls[1..];
      IdealCons(past, calls + [call], ttl);
      IdealCons(past, calls, ttl);
      IdealAppend(past + [calls[0]], calls[1..], call, ttl);
    }
  }

  /**
   What a lookup must say: nothing if no answer was stored under the key, or the last one is as
   old as the time to live; otherwise that answer, unless it was stored for another payload.
   */
  ghost predicate RightAnswer(past: seq<Call>, get: Call, ttl: nat, answer: Answer)
    requires get.Get?
  {
    && (!Stored(past, get.key) ==> answer == Miss)
    && forall j: nat :: LastOf(past, get.key, j) ==>
         if get.at - past[j].at >= ttl then answer == Miss
         else if past[j].hash == get.hash
         then answer == Hit(Cached(past[j].status, past[j].body, past[j].at, get.hash))
         else answer == PayloadMismatch
  }

  lemma IdealRight(past: seq<Call>, get: Call, ttl: nat)
    requires get.Get? && forall j :: 0 <= j < |past| ==> past[j].at <= get.at
    ensures RightAnswer(past, get, ttl, Ideal(past, get.key, get.hash, get.at, ttl))
  {
    StoredExact(past, get.key);
    forall j: nat | LastOf(past, get.key, j)
      ensures LastInsert(past, get.key) == Some(Cached(past[j].status, past[j].body, past[j].at, past[j].hash))
    {
      LastOfExact(past, get.key, j);
    }
  }

  /** Every lookup of a store that began empty gives the right answer. */
  lemma LookupRight(past: seq<Call>, get: Call, ttl: nat)
    requires get.Get? && InOrder(past + [get])
    ensures
      var answers := Answers(map[], past + [get], ttl);
      answers != [] && RightAnswer(past, get, ttl, answers[|answers| - 1])
  {
    PurgesDoNotShow(past + [get], ttl);
    IdealAppend([], past, get, ttl);
    assert [] + past == past;
    forall j | 0 <= j < |past|
      ensures past[j].at <= get.at
    {
      assert (past + [get])[j] == past[j] && (past + [get])[|past|] == get;
    }
    IdealRight(past, get, ttl);
  }
}
