/**
 What one request to a Soroban RPC endpoint can come to, which of its errors are retried and
 which make the client go on to the next endpoint.
 */
module RpcErrors {
  import opened Common
  import opened Numerals
  import opened Texts

  /** An error of the HTTP client with what it says of itself, or one made of a text alone. */
  datatype Error =
    | Http(message: string, timeout: bool, connect: bool, request: bool, status: Option<nat>)
    | Text(message: string)

  predicate At(s: string, w: string, i: nat) {
    i + |w| <= |s| && s[i..i + |w|] == w
  }

  predicate Contains(s: string, w: string) {
    exists i | 0 <= i <= |s| :: At(s, w, i)
  }

  predicate ContainsAny(s: string, words: seq<string>) {
    exists w | w in words :: Contains(s, w)
  }

  /** Words of errors that trying again does not mend. */
  const FINAL := ["NOT_FOUND", "UNAUTHORIZED", "NOT_PAID", "Empty RPC result", "tx_bad_seq", "bad_seq",
                  "bad sequence", "BAD_SEQ", "EXPIRED_SEQ", "expired sequence"]

  /** Words of errors that may pass. */
  const PASSING := ["5xx", "500", "502", "503", "504", "connection", "timeout", "reset", "timed out", "broken pipe"]

  predicate ServerError(status: nat) {
    500 <= status < 600
  }

  predicate Transient(e: Error) {
    && !ContainsAny(e.message, FINAL)
    && match e
       case Http(_, timeout, connect, request, status) =>
         timeout || connect || request || (status.Some? && ServerError(status.value))
       case Text(message) => ContainsAny(message, PASSING)
  }

  predicate TransportError(e: Error) {
    e.Http?
  }

  // ----- one request -------------------------------------------------------

  datatype Body = Decoded(response: string) | Undecodable(error: Error)

  /** Sending failed, or an answer came with a status and a body. */
  datatype Attempt = NoAnswer(error: Error) | Answered(status: nat, body: Body)

  /** Errors of sending, and of reading a body, are errors of the HTTP client. */
  predicate Possible(a: Attempt) {
    (a.NoAnswer? ==> a.error.Http?) && (a.Answered? && a.body.Undecodable? ==> a.body.error.Http?)
  }

  datatype Outcome = Ok(response: string) | Err(error: Error)

  function OutcomeOf(a: Attempt): Outcome {
    match a
    case NoAnswer(error) => Err(error)
    case Answered(status, body) =>
      if ServerError(status) then Err(Text(ServerErrorText(status)))
      else
        match body
        case Decoded(response) => Ok(response)
        case Undecodable(error) => Err(error)
  }

  /** The next endpoint is asked after exactly two things: no answer, and an answer that cannot be decoded. */
  lemma TransportExact(a: Attempt)
    requires Possible(a)
    ensures
      OutcomeOf(a).Err? && TransportError(OutcomeOf(a).error) <==>
      a.NoAnswer? || (!ServerError(a.status) && a.body.Undecodable?)
  {
  }

  // ----- which server errors are retried -----------------------------------

  function ServerErrorText(status: nat): string {
    Join(["RPC", "node", "returned", "HTTP", Digits(status)] + Reason(status), ' ')
  }

  /** The words of the registered names of the server errors (RFC 9110, section 15.6, and the registry it keeps). */
  function Reason(status: nat): (words: seq<string>)
    ensures words != []
  {
    match status
    case 500 => ["Internal", "Server", "Error"]
    case 501 => ["Not", "Implemented"]
    case 502 => ["Bad", "Gateway"]
    case 503 => ["Service", "Unavailable"]
    case 504 => ["Gateway", "Timeout"]
    case 505 => ["HTTP", "Version", "Not", "Supported"]
    case 506 => ["Variant", "Also", "Negotiates"]
    case 507 => ["Insufficient", "Storage"]
    case 508 => ["Loop", "Detected"]
    case 510 => ["Not", "Extended"]
    case 511 => ["Network", "Authentication", "Required"]
    case _ => ["<unknown", "status", "code>"]
  }

  /** Two neighbouring characters of each word of a list, chosen so that other messages do not have them. */
  predicate Mark(passing: bool, a: char, b: char) {
    if passing then
      (a == 'x' && b == 'x') || (a == 'n' && b == 'n') || (a == 'i' && b == 'm') || (a == 's' && b == 'e') ||
      (a == 'b' && b == 'r') || (a == '0' && (b == '0' || b == '2' || b == '3' || b == '4'))
    else
      (a == 'T' && b == '_') || (a == 'U' && b == 'N') || (a == 'E' && b == 'm') || (a == '_' && b == 's') ||
      (a == 'n' && b == 'c') || (a == 'D' && b == '_') || (a == 'x' && b == 'p')
  }

  predicate PairAt(s: string, i: nat, passing: bool) {
    i + 1 < |s| && Mark(passing, s[i], s[i + 1])
  }

  ghost predicate Without(s: string, passing: bool) {
    forall i :: 0 <= i < |s| ==> !PairAt(s, i, passing)
  }

  lemma WithoutConcat(s: string, t: string, passing: bool)
    requires Without(s, passing) && Without(t, passing)
    requires s != "" && t != "" ==> !Mark(passing, s[|s| - 1], t[0])
    ensures Without(s + t, passing)
  {
    forall i | 0 <= i < |s + t|
      ensures !PairAt(s + t, i, passing)
    {
      assert i < |s| ==> !PairAt(s, i, passing);
      assert i >= |s| ==> !PairAt(t, i - |s|, passing);
    }
  }

  lemma MarkedWordAbsent(s: string, w: string, p: nat, passing: bool)
    requires Without(s, passing) && PairAt(w, p, passing)
    ensures !Contains(s, w)
  {
    forall i | 0 <= i <= |s|
      ensures !At(s, w, i)
    {
      if At(s, w, i) {
        assert s[i..i + |w|][p] == s[i + p] && s[i..i + |w|][p + 1] == s[i + p + 1];
        assert PairAt(s, i + p, passing);
      }
    }
  }

  lemma FinalWordsAbsent(s: string)
    requires Without(s, false)
    ensures !ContainsAny(s, FINAL)
  {
    MarkedWordAbsent(s, "NOT_FOUND", 2, false);
    MarkedWordAbsent(s, "UNAUTHORIZED", 0, false);
    MarkedWordAbsent(s, "NOT_PAID", 2, false);
    MarkedWordAbsent(s, "Empty RPC result", 0, false);
    MarkedWordAbsent(s, "tx_bad_seq", 6, false);
    MarkedWordAbsent(s, "bad_seq", 3, false);
    MarkedWordAbsent(s, "bad sequence", 9, false);
    MarkedWordAbsent(s, "BAD_SEQ", 2, false);
    MarkedWordAbsent(s, "EXPIRED_SEQ", 6, false);
    MarkedWordAbsent(s, "expired sequence", 1, false);
  }

  lemma PassingWordsAbsent(s: string)
    requires Without(s, true)
    ensures !ContainsAny(s, PASSING)
  {
    MarkedWordAbsent(s, "5xx", 1, true);
    MarkedWordAbsent(s, "500", 1, true);
    MarkedWordAbsent(s, "502", 1, true);
    MarkedWordAbsent(s, "503", 1, true);
    MarkedWordAbsent(s, "504", 1, true);
    MarkedWordAbsent(s, "connection", 2, true);
    MarkedWordAbsent(s, "timeout", 1, true);
    MarkedWordAbsent(s, "reset", 2, true);
    MarkedWordAbsent(s, "timed out", 1, true);
    MarkedWordAbsent(s, "broken pipe", 0, true);
  }

  ghost predicate WordsWithout(words: seq<string>, passing: bool) {
    forall k :: 0 <= k < |words| ==> Without(words[k], passing)
  }

  lemma {:induction false} JoinWithout(words: seq<string>, passing: bool)
    requires WordsWithout(words, passing)
    ensures Without(Join(words, ' '), passing)
    decreases words
  {
    if |words| > 1 {
      assert WordsWithout(words[1..], passing);
      JoinWithout(words[1..], passing);
      assert Without(" ", passing);
      WithoutConcat(words[0], " ", passing);
      WithoutConcat(words[0] + " ", Join(words[1..], ' '), passing);
    }
  }

  const SHORT_WORDS := {"Server", "Error", "Not", "Bad", "HTTP", "Also", "Loop", "status", "code>", "Storage"}

  const LONG_WORDS := {"Internal", "Gateway", "Service", "Version", "Variant", "Detected", "Extended", "Network"}

  const LONGER_WORDS := {"Implemented", "Unavailable", "Supported", "Negotiates", "Required", "<unknown"}

  const LONGEST_WORDS := {"Insufficient", "Authentication"}

  lemma ShortWithout(w: string, passing: bool)
    requires w in SHORT_WORDS
    ensures Without(w, passing)
  {
  }

  lemma LongWithout(w: string, passing: bool)
    requires w in LONG_WORDS
    ensures Without(w, passing)
  {
  }

  lemma LongerWithout(w: string, passing: bool)
    requires w in LONGER_WORDS
    ensures Without(w, passing)
  {
  }

  lemma LongestWithout(w: string, passing: bool)
    requires w in LONGEST_WORDS || (w == "Timeout" && !passing)
    ensures Without(w, passing)
  {
  }

  lemma ReasonWithout(status: nat, passing: bool)
    requires passing ==> status != 504
    ensures WordsWithout(Reason(status), passing)
  {
    var words := Reason(status);
    forall k | 0 <= k < |words|
      ensures Without(words[k], passing)
    {
      if words[k] in SHORT_WORDS {
        ShortWithout(words[k], passing);
      } else if words[k] in LONG_WORDS {
        LongWithout(words[k], passing);
      } else if words[k] in LONGER_WORDS {
        LongerWithout(words[k], passing);
      } else {
        LongestWithout(words[k], passing);
      }
    }
  }

  lemma DigitsOfServerError(status: nat)
    requires ServerError(status)
    ensures Digits(status) == ['5', DigitChar(status / 10 % 10), DigitChar(status % 10)]
  {
    assert Digits(status / 100) == ['5'];
    assert Digits(status / 10) == ['5', DigitChar(status / 10 % 10)];
  }

  lemma DigitsWithout(status: nat, passing: bool)
    requires ServerError(status) && (passing ==> !NamedServerError(status))
    ensures Without(Digits(status), passing)
  {
    DigitsOfServerError(status);
  }

  lemma PhraseWithout(passing: bool)
    ensures WordsWithout(["RPC", "node", "returned", "HTTP"], passing)
  {
  }

  /** Statuses whose text holds a word of an error that may pass. */
  predicate NamedServerError(status: nat) {
    status == 500 || status == 502 || status == 503 || status == 504
  }

  lemma {:induction false} WordFound(words: seq<string>, k: nat)
    requires k < |words|
    ensures Contains(Join(words, ' '), words[k])
    decreases words
  {
    var text := Join(words, ' ');
    if k == 0 {
      assert At(text, words[0], 0);
    } else {
      WordFound(words[1..], k - 1);
      var rest := Join(words[1..], ' ');
      var i :| 0 <= i <= |rest| && At(rest, words[k], i);
      assert text == words[0] + [' '] + rest;
      assert text[|words[0]| + 1 + i..][..|words[k]|] == rest[i..][..|words[k]|];
      assert At(text, words[k], |words[0]| + 1 + i);
    }
  }

  lemma NamedStatusFound(status: nat)
    requires NamedServerError(status)
    ensures ContainsAny(ServerErrorText(status), PASSING)
  {
    DigitsOfServerError(status);
    WordFound(["RPC", "node", "returned", "HTTP", Digits(status)] + Reason(status), 4);
    assert Digits(status) in PASSING;
  }

  lemma TextWithout(status: nat, passing: bool)
    requires ServerError(status) && (passing ==> !NamedServerError(status))
    ensures Without(ServerErrorText(status), passing)
  {
    DigitsWithout(status, passing);
    PhraseWithout(passing);
    ReasonWithout(status, passing);
    JoinWithout(["RPC", "node", "returned", "HTTP", Digits(status)] + Reason(status), passing);
  }

  /** Of all server errors exactly four are retried. */
  lemma ServerErrorRetried(status: nat)
    requires ServerError(status)
    ensures Transient(Text(ServerErrorText(status))) <==> NamedServerError(status)
  {
    TextWithout(status, false);
    FinalWordsAbsent(ServerErrorText(status));
    if NamedServerError(status) {
      NamedStatusFound(status);
    } else {
      TextWithout(status, true);
      PassingWordsAbsent(ServerErrorText(status));
    }
  }

  // ----- which errors are retried ------------------------------------------

  /** The text is what comes before the word, the word, and what comes after it. */
  ghost predicate Occurs(w: string, s: string) {
    exists a, b :: s == a + w + b
  }

  lemma OccursExact(w: string, s: string)
    ensures Occurs(w, s) <==> Contains(s, w)
  {
    if a, b :| s == a + w + b {
      assert s[|a|..|a| + |w|] == w;
      assert At(s, w, |a|);
    }
    if i :| 0 <= i <= |s| && At(s, w, i) {
      assert s == s[..i] + w + s[i + |w|..];
    }
  }

  predicate FinalWord(w: string) {
    || w == "NOT_FOUND" || w == "UNAUTHORIZED" || w == "NOT_PAID" || w == "Empty RPC result" || w == "tx_bad_seq"
    || w == "bad_seq" || w == "bad sequence" || w == "BAD_SEQ" || w == "EXPIRED_SEQ" || w == "expired sequence"
  }

  predicate PassingWord(w: string) {
    || w == "5xx" || w == "500" || w == "502" || w == "503" || w == "504" || w == "connection" || w == "timeout"
    || w == "reset" || w == "timed out" || w == "broken pipe"
  }

  ghost predicate SaysFinal(s: string) {
    exists w :: FinalWord(w) && Occurs(w, s)
  }

  ghost predicate SaysPassing(s: string) {
    exists w :: PassingWord(w) && Occurs(w, s)
  }

  lemma FinalWordExact(w: string)
    ensures FinalWord(w) <==> w in FINAL
  {
  }

  lemma PassingWordExact(w: string)
    ensures PassingWord(w) <==> w in PASSING
  {
  }

  lemma FinalExact(s: string)
    ensures SaysFinal(s) <==> ContainsAny(s, FINAL)
  {
    forall w
      ensures FinalWord(w) && Occurs(w, s) <==> w in FINAL && Contains(s, w)
    {
      FinalWordExact(w);
      OccursExact(w, s);
    }
  }

  lemma PassingExact(s: string)
    ensures SaysPassing(s) <==> ContainsAny(s, PASSING)
  {
    forall w
      ensures PassingWord(w) && Occurs(w, s) <==> w in PASSING && Contains(s, w)
    {
      PassingWordExact(w);
      OccursExact(w, s);
    }
  }

  /**
   An error of the HTTP client is retried if it is a timeout, a failed connection or request, or
   has a status from 500 to 599, and a text if it has a word of an error that may pass; neither
   if it has a word of one that does not.
   */
  lemma RetriedExactly(e: Error)
    ensures
      Transient(e) <==>
      && !SaysFinal(e.message)
      && if e.Text? then SaysPassing(e.message)
         else e.timeout || e.connect || e.request || (e.status.Some? && 500 <= e.status.value <= 599)
  {
    FinalExact(e.message);
    PassingExact(e.message);
  }
}
