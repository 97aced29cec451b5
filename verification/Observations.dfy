/** Recitation observations and the limits placed on them before anything is aligned. */
module Observations {
  import opened Wrappers
  import opened EditScript
  import opened Corpus

  const MAX_TOKENS := 64
  const MAX_PHONEMES := 128
  const MAX_SAFE_INTEGER := 0x1F_FFFF_FFFF_FFFF

  datatype Token = Token(
    id: string,
    phonemes: seq<Phoneme>,
    startMs: Option<real>,
    endMs: Option<real>,
    confidence: Option<real>)

  datatype Observation = Observation(
    observationId: string,
    sourceRevision: int,
    isFinal: bool,
    receivedAtMs: real,
    tokens: seq<Token>)

  datatype Rejection =
    | BlankObservationId | BadSourceRevision | BadReceivedAt | TooManyTokens | EmptyPartial
    | BlankTokenId | DuplicateTokenId | BadTimestamp | DecreasingTimestamp | BadConfidence | TooManyPhonemes

  /** The phonemes of all tokens, in order. */
  function PhonemesOf(tokens: seq<Token>): seq<Phoneme> {
    if tokens == [] then [] else PhonemesOf(tokens[..|tokens| - 1]) + tokens[|tokens| - 1].phonemes
  }

  /** One acoustic confidence per phoneme: that of the phoneme's token. */
  function AcousticsOf(tokens: seq<Token>): (r: seq<Option<real>>)
    ensures |r| == |PhonemesOf(tokens)|
  {
    if tokens == [] then []
    else
      var last := tokens[|tokens| - 1];
      AcousticsOf(tokens[..|tokens| - 1]) + seq(|last.phonemes|, _ => last.confidence)
  }

  function Stamp(stamp: Option<real>): seq<real> { if stamp.Some? then [stamp.value] else [] }

  /** All timestamps that are present, in token order, each token's start before its end. */
  function Timestamps(tokens: seq<Token>): seq<real> {
    if tokens == [] then []
    else
      var last := tokens[|tokens| - 1];
      Timestamps(tokens[..|tokens| - 1]) + Stamp(last.startMs) + Stamp(last.endMs)
  }

  predicate NonDecreasing(s: seq<real>) { forall i | 0 < i < |s| :: s[i - 1] <= s[i] }

  predicate Proper(s: seq<real>) { NonDecreasing(s) && forall t <- s :: t >= 0.0 }

  predicate ValidConfidence(c: Option<real>) { c.Some? ==> 0.0 <= c.value <= 1.0 }

  predicate ValidTokens(tokens: seq<Token>) {
    && (forall i | 0 <= i < |tokens| :: NonBlank(tokens[i].id) && ValidConfidence(tokens[i].confidence))
    && (forall i, j | 0 <= i < j < |tokens| :: tokens[i].id != tokens[j].id)
    && Proper(Timestamps(tokens))
  }

  predicate ValidObservation(o: Observation) {
    && NonBlank(o.observationId)
    && 0 <= o.sourceRevision <= MAX_SAFE_INTEGER
    && o.receivedAtMs >= 0.0
    && |o.tokens| <= MAX_TOKENS
    && (!o.isFinal ==> o.tokens != [])
    && ValidTokens(o.tokens)
    && |PhonemesOf(o.tokens)| <= MAX_PHONEMES
  }

  function Latest(stamps: seq<real>): Option<real> {
    if stamps == [] then None else Some(stamps[|stamps| - 1])
  }

  lemma NextStamp(stamps: seq<real>, t: real)
    requires Proper(stamps)
    ensures Proper(stamps + [t]) <==> t >= 0.0 && (Latest(stamps).Some? ==> Latest(stamps).value <= t)
  {
    var all := stamps + [t];
    if Proper(all) {
      assert all[|stamps|] == t && t in all;
      if stamps != [] { assert all[|stamps| - 1] == stamps[|stamps| - 1]; }
    }
  }

  lemma ImproperStays(stamps: seq<real>, more: seq<real>)
    requires !Proper(stamps)
    ensures !Proper(stamps + more)
  {
    var all := stamps + more;
    if Proper(all) {
      forall i | 0 < i < |stamps| ensures stamps[i - 1] <= stamps[i] { assert all[i - 1] <= all[i]; }
      forall t | t in stamps ensures t >= 0.0 { assert t in all; }
    }
  }

  // ----- which rejection is reported

  function StampRejection(stamp: Option<real>, stamps: seq<real>): Option<Rejection> {
    if stamp.None? then None
    else if stamp.value < 0.0 then Some(BadTimestamp)
    else if stamps != [] && stamp.value < stamps[|stamps| - 1] then Some(DecreasingTimestamp)
    else None
  }

  /** The first thing wrong with the times or the confidence of a token that comes after these timestamps. */
  function TimesRejection(t: Token, stamps: seq<real>): Option<Rejection> {
    var start, end := StampRejection(t.startMs, stamps), StampRejection(t.endMs, stamps + Stamp(t.startMs));
    if start.Some? then start else if end.Some? then end else if !ValidConfidence(t.confidence) then Some(BadConfidence) else None
  }

  /** The first thing wrong with the i-th token after the tokens in front of it. */
  function TokenRejection(tokens: seq<Token>, i: nat): Option<Rejection>
    requires i < |tokens|
  {
    if !NonBlank(tokens[i].id) then Some(BlankTokenId)
    else if exists j :: 0 <= j < i && tokens[j].id == tokens[i].id then Some(DuplicateTokenId)
    else
      var times := TimesRejection(tokens[i], Timestamps(tokens[..i]));
      if times.Some? then times
      else if |PhonemesOf(tokens[..i + 1])| > MAX_PHONEMES then Some(TooManyPhonemes)
      else None
  }

  predicate TokensPass(tokens: seq<Token>, n: nat)
    requires n <= |tokens|
  {
    forall i | 0 <= i < n :: TokenRejection(tokens, i) == None
  }

  /** The rejection of the first token with which something is wrong. */
  ghost predicate IsTokensRejection(tokens: seq<Token>, e: Rejection) {
    exists i :: 0 <= i < |tokens| && TokensPass(tokens, i) && TokenRejection(tokens, i) == Some(e)
  }

  function HeaderRejection(o: Observation): Option<Rejection> {
    if !NonBlank(o.observationId) then Some(BlankObservationId)
    else if !(0 <= o.sourceRevision <= MAX_SAFE_INTEGER) then Some(BadSourceRevision)
    else if o.receivedAtMs < 0.0 then Some(BadReceivedAt)
    else if |o.tokens| > MAX_TOKENS then Some(TooManyTokens)
    else if !o.isFinal && o.tokens == [] then Some(EmptyPartial)
    else None
  }

  /** The one rejection that is reported: the observation itself is looked at before its tokens, and these
      in order. */
  ghost predicate IsRejection(o: Observation, e: Rejection) {
    if HeaderRejection(o).Some? then HeaderRejection(o) == Some(e) else IsTokensRejection(o.tokens, e)
  }

  lemma OneRejection(o: Observation, e: Rejection, f: Rejection)
    requires IsRejection(o, e) && IsRejection(o, f)
    ensures e == f
  {
    if HeaderRejection(o).None? {
      var i :| 0 <= i < |o.tokens| && TokensPass(o.tokens, i) && TokenRejection(o.tokens, i) == Some(e);
      var j :| 0 <= j < |o.tokens| && TokensPass(o.tokens, j) && TokenRejection(o.tokens, j) == Some(f);
      assert !(i < j) && !(j < i);
    }
  }

  /** Checks one optional timestamp against the latest one so far. */
  method CheckStamp(stamp: Option<real>, latest: Option<real>, ghost stamps: seq<real>) returns (r: Result<Option<real>, Rejection>)
    requires Proper(stamps) && latest == Latest(stamps)
    ensures r.Ok? <==> Proper(stamps + Stamp(stamp))
    ensures r.Ok? ==> r.value == Latest(stamps + Stamp(stamp))
    ensures StampRejection(stamp, stamps) == if r.Ok? then None else Some(r.error)
  {
    if stamp.None? {
      assert stamps + [] == stamps;
      return Ok(latest);
    }
    NextStamp(stamps, stamp.value);
    if stamp.value < 0.0 { return Err(BadTimestamp); }
    if latest.Some? && stamp.value < latest.value { return Err(DecreasingTimestamp); }
    return Ok(stamp);
  }

  /** The two checks on one token; the result is the latest timestamp after it. */
  method ValidateToken(token: Token, latest: Option<real>, ghost stamps: seq<real>) returns (r: Result<Option<real>, Rejection>)
    requires Proper(stamps) && latest == Latest(stamps)
    ensures r.Ok? <==> Proper(stamps + Stamp(token.startMs) + Stamp(token.endMs)) && ValidConfidence(token.confidence)
    ensures r.Ok? ==> r.value == Latest(stamps + Stamp(token.startMs) + Stamp(token.endMs))
    ensures TimesRejection(token, stamps) == if r.Ok? then None else Some(r.error)
  {
    var started := CheckStamp(token.startMs, latest, stamps);
    if started.Err? {
      ImproperStays(stamps + Stamp(token.startMs), Stamp(token.endMs));
      return started;
    }
    var ended := CheckStamp(token.endMs, started.value, stamps + Stamp(token.startMs));
    if ended.Err? { return ended; }
    if !ValidConfidence(token.confidence) { return Err(BadConfidence); }
    return ended;
  }

  lemma PrefixFacts(tokens: seq<Token>, i: nat)
    requires i < |tokens|
    ensures PhonemesOf(tokens[..i + 1]) == PhonemesOf(tokens[..i]) + tokens[i].phonemes
    ensures Timestamps(tokens[..i + 1]) == Timestamps(tokens[..i]) + Stamp(tokens[i].startMs) + Stamp(tokens[i].endMs)
  {
    assert tokens[..i + 1][..i] == tokens[..i];
  }

  /** A defect found in a prefix of the tokens is a defect of all of them. */
  lemma {:induction false} PrefixInvalid(tokens: seq<Token>, i: nat)
    requires i <= |tokens|
    ensures ValidTokens(tokens) ==> ValidTokens(tokens[..i])
    ensures |PhonemesOf(tokens[..i])| <= |PhonemesOf(tokens)|
    decreases |tokens| - i
  {
    if i == |tokens| {
      assert tokens[..i] == tokens;
    } else {
      PrefixInvalid(tokens, i + 1);
      PrefixFacts(tokens, i);
      if !Proper(Timestamps(tokens[..i])) {
        ImproperStays(Timestamps(tokens[..i]), Stamp(tokens[i].startMs));
        ImproperStays(Timestamps(tokens[..i]) + Stamp(tokens[i].startMs), Stamp(tokens[i].endMs));
      }
    }
  }

  lemma ValidTokensGrow(tokens: seq<Token>, i: nat)
    requires i < |tokens| && ValidTokens(tokens[..i])
    ensures Proper(Timestamps(tokens[..i]))
    ensures ValidTokens(tokens[..i + 1]) <==>
            && NonBlank(tokens[i].id) && ValidConfidence(tokens[i].confidence)
            && (forall j | 0 <= j < i :: tokens[j].id != tokens[i].id)
            && Proper(Timestamps(tokens[..i]) + Stamp(tokens[i].startMs) + Stamp(tokens[i].endMs))
  {
    hide Timestamps;
    PrefixFacts(tokens, i);
    var grown := tokens[..i + 1];
    assert grown == tokens[..i] + [tokens[i]] && grown[i] == tokens[i];
    assert forall j | 0 <= j < i :: grown[j] == tokens[j];
  }

  function TokenIds(tokens: seq<Token>): set<string> { set t <- tokens :: t.id }

  lemma TokenIdsGrow(tokens: seq<Token>, i: nat)
    requires i < |tokens|
    ensures TokenIds(tokens[..i + 1]) == TokenIds(tokens[..i]) + {tokens[i].id}
    ensures tokens[i].id in TokenIds(tokens[..i]) <==> exists j :: 0 <= j < i && tokens[j].id == tokens[i].id
  {
    assert tokens[..i + 1] == tokens[..i] + [tokens[i]];
    if tokens[i].id in TokenIds(tokens[..i]) {
      var t :| t in tokens[..i] && t.id == tokens[i].id;
    }
    assert forall j | 0 <= j < i :: tokens[j] in tokens[..i];
  }

  /** What has been seen of the tokens so far. */
  datatype Seen = Seen(tokenIds: set<string>, phonemeCount: nat, lastTimestamp: Option<real>)

  ghost predicate SeenUpTo(tokens: seq<Token>, i: nat, seen: Seen)
    requires i <= |tokens|
  {
    && ValidTokens(tokens[..i]) && seen.tokenIds == TokenIds(tokens[..i])
    && seen.phonemeCount == |PhonemesOf(tokens[..i])| <= MAX_PHONEMES
    && seen.lastTimestamp == Latest(Timestamps(tokens[..i]))
  }

  /** The next token passes exactly when everything up to it is valid. */
  method ValidateNext(tokens: seq<Token>, i: nat, seen: Seen) returns (r: Result<Seen, Rejection>)
    requires i < |tokens| && SeenUpTo(tokens, i, seen)
    ensures r.Ok? <==> ValidTokens(tokens[..i + 1]) && |PhonemesOf(tokens[..i + 1])| <= MAX_PHONEMES
    ensures r.Ok? ==> SeenUpTo(tokens, i + 1, r.value)
    ensures TokenRejection(tokens, i) == if r.Ok? then None else Some(r.error)
  {
    ValidTokensGrow(tokens, i);
    TokenIdsGrow(tokens, i);
    PrefixFacts(tokens, i);
    hide NonBlank, ValidConfidence, Proper, ValidTokens, Timestamps, PhonemesOf, TimesRejection;
    var token := tokens[i];
    if !NonBlank(token.id) { return Err(BlankTokenId); }
    if token.id in seen.tokenIds { return Err(DuplicateTokenId); }
    var checked := ValidateToken(token, seen.lastTimestamp, Timestamps(tokens[..i]));
    if checked.Err? { return Err(checked.error); }
    var phonemeCount := seen.phonemeCount + |token.phonemes|;
    if phonemeCount > MAX_PHONEMES { return Err(TooManyPhonemes); }
    return Ok(Seen(seen.tokenIds + {token.id}, phonemeCount, checked.value));
  }

  method ValidateTokens(tokens: seq<Token>) returns (r: Result<(), Rejection>)
    ensures r.Ok? <==> ValidTokens(tokens) && |PhonemesOf(tokens)| <= MAX_PHONEMES
    ensures r.Err? ==> IsTokensRejection(tokens, r.error)
  {
    var seen := Seen({}, 0, None);
    for i := 0 to |tokens|
      invariant SeenUpTo(tokens, i, seen) && TokensPass(tokens, i)
    {
      PrefixInvalid(tokens, i + 1);
      var next := ValidateNext(tokens, i, seen);
      if next.Err? { return Err(next.error); }
      seen := next.value;
    }
    assert tokens[..|tokens|] == tokens;
    return Ok(());
  }

  method Validate(o: Observation) returns (r: Result<(), Rejection>)
    ensures r.Ok? <==> ValidObservation(o)
    ensures r.Err? ==> IsRejection(o, r.error)
  {
    if !NonBlank(o.observationId) { return Err(BlankObservationId); }
    if o.sourceRevision < 0 || o.sourceRevision > MAX_SAFE_INTEGER { return Err(BadSourceRevision); }
    if o.receivedAtMs < 0.0 { return Err(BadReceivedAt); }
    if |o.tokens| > MAX_TOKENS { return Err(TooManyTokens); }
    if !o.isFinal && o.tokens == [] { return Err(EmptyPartial); }
    r := ValidateTokens(o.tokens);
  }
}
