/**
 Retrying failed messages: each pass sends the stored payloads of the messages that are due again, with
 a delay that doubles with every attempt.

 The module proves what a pass does to every row, that over any number of passes a row is tried at most
 as often as its remaining attempts allow, and what the delay is, without overflow.
 */
module Retry {
  import opened Wrappers
  import opened Text
  import opened Mapper
  import opened Messages
  import opened Lifecycle
  import opened Processor

  newtype int64 = x: int | -0x8000_0000_0000_0000 <= x < 0x8000_0000_0000_0000

  const SECOND: int := 1_000_000_000
  const CAP: int := 600 * SECOND
  const DEFAULT_BASE: int := 5 * SECOND

  // ---------------------------------------------------------------- the delay

  function Pow2(n: nat): nat {
    if n == 0 then 1 else 2 * Pow2(n - 1)
  }

  function Min(a: int, b: int): int {
    if a <= b then a else b
  }

  function BaseOf(base: int): int {
    if base <= 0 then DEFAULT_BASE else base
  }

  /** The delay before the next attempt: only from the second attempt on is it capped. */
  function Backoff(base: int, attempts: int): int {
    if attempts <= 1 then BaseOf(base) else Min(BaseOf(base) * Pow2(attempts - 1), CAP)
  }

  lemma {:induction false} Pow2Monotone(a: nat, b: nat)
    requires a <= b
    ensures Pow2(a) <= Pow2(b)
  {
    if a < b {
      Pow2Monotone(a, b - 1);
    }
  }

  lemma TimesMonotone(k: int, a: int, b: int)
    requires 0 <= k && a <= b
    ensures k * a <= k * b
  {
  }

  /** The base doubled some number of times. */
  function Doubled(base: int, times: nat): int {
    if times == 0 then base else 2 * Doubled(base, times - 1)
  }

  lemma {:induction false} DoubledIsPower(base: int, times: nat)
    ensures Doubled(base, times) == base * Pow2(times)
  {
    if times > 0 {
      DoubledIsPower(base, times - 1);
    }
  }

  lemma {:induction false} DoubledGrows(base: int, a: nat, b: nat)
    requires 0 < base && a <= b
    ensures 0 < Doubled(base, a) <= Doubled(base, b)
  {
    if a < b {
      DoubledGrows(base, a, b - 1);
    } else if a > 0 {
      DoubledGrows(base, a - 1, b - 1);
    }
  }

  /** Doubles the base up to the cap, in 64-bit arithmetic. */
  method RetryBackoff(configured: int64, attempts: int) returns (backoff: int64)
    ensures backoff as int == Backoff(configured as int, attempts)
  {
    var base := configured;
    if base <= 0 {
      base := 5_000_000_000;
    }
    if attempts <= 1 {
      return base;
    }
    DoubledIsPower(base as int, attempts - 1);
    backoff := base;
    var i := 1;
    while i < attempts
      invariant 1 <= i <= attempts
      invariant 0 < backoff && backoff as int == Doubled(base as int, i - 1)
    {
      if backoff >= 600_000_000_000 {
        DoubledGrows(base as int, i - 1, attempts - 1);
        return 600_000_000_000;
      }
      backoff := backoff * 2;
      i := i + 1;
    }
    if backoff > 600_000_000_000 {
      return 600_000_000_000;
    }
  }

  /** For a base of at most ten minutes the delay is the doubled base, capped, from the first attempt on. */
  lemma BackoffIsCappedDoubling(base: int, attempts: int)
    requires 0 < base <= CAP && attempts >= 1
    ensures Backoff(base, attempts) == Min(base * Pow2(attempts - 1), CAP)
  {
    assert attempts == 1 ==> base * Pow2(0) == base;
  }

  /** The delay never shrinks as attempts go up, exactly when the base is at most ten minutes. */
  lemma BackoffMonotoneIff(base: int)
    ensures (forall a: int, b: int :: 1 <= a <= b ==> Backoff(base, a) <= Backoff(base, b)) <==> base <= CAP
  {
    if base <= CAP {
      forall a: int, b: int | 1 <= a <= b ensures Backoff(base, a) <= Backoff(base, b) {
        BackoffIsCappedDoubling(BaseOf(base), a);
        BackoffIsCappedDoubling(BaseOf(base), b);
        Pow2Monotone(a - 1, b - 1);
        TimesMonotone(BaseOf(base), Pow2(a - 1), Pow2(b - 1));
      }
    } else {
      assert Backoff(base, 2) <= CAP < Backoff(base, 1);
    }
  }

  // ---------------------------------------------------------------- one message

  predicate Due(msg: Message, now: int, base: int) {
    msg.publishAttempts == 0
    || now >= (if msg.lastPublish.Some? then msg.lastPublish.value else if msg.created.Some? then msg.created.value else 0)
              + Backoff(base, msg.publishAttempts)
  }

  /** The moment from which the delay counts: the last attempt, or else the creation of the row. */
  predicate LastTried(msg: Message, at: int) {
    msg.lastPublish == Some(at) || (msg.lastPublish.None? && (msg.created == Some(at) || (msg.created.None? && at == 0)))
  }

  /**
   A row that was never attempted is due at once; one with attempts when, since it was last tried, the base has passed,
   doubled for each attempt after the first and at most ten minutes. Once due it stays due.
   */
  lemma DueIff(msg: Message, now: int, base: int, at: int, later: int)
    requires 0 < base <= CAP && LastTried(msg, at) && now <= later
    ensures Due(msg, now, base) <==> msg.publishAttempts == 0 || now - at >= Min(base * Pow2(msg.publishAttempts - 1), CAP)
    ensures Due(msg, now, base) ==> Due(msg, later, base)
  {
    if msg.publishAttempts > 0 {
      BackoffIsCappedDoubling(base, msg.publishAttempts);
    }
  }

  /** The row a retry starts from: failed, with one more attempt. */
  function RetryRow(msg: Message, now: int): Message {
    Message(msg.uri, msg.cid, "", msg.did, msg.collection, FailedState, msg.rawAt, msg.payload, None, "", 1, Some(now), "", 0, None,
      msg.deletedAt, msg.deletedSeq, msg.deletedReason, "", "", None)
  }

  datatype Retried = Retried(msg: Message, sent: seq<Sent>, ok: bool)

  /** Sends the stored payload again, as it is. */
  function RetryOne(env: Env, msg: Message, n: nat, now: int): Retried
    requires env.publisher.Some?
  {
    var row := RetryRow(msg, now);
    match msg.payload
    case None => Retried(row.(publishError := "retry decode mapped payload"), [], false)
    case Some(content) =>
      var result := Publish(env, n, msg.did, content);
      var sent := [Sent(true, msg.uri, msg.did, content, result)];
      match result
      case Err(error) => Retried(Failed(row, error), sent, false)
      case Ok(ref) => Retried(Published(row, ref, now).(publishError := ""), sent, true)
  }

  lemma RetriedRowIsOk(env: Env, msg: Message, n: nat, now: int)
    requires PublisherOk(env) && env.publisher.Some?
    ensures var r := RetryOne(env, msg, n, now);
      && RowOk(r.msg) && r.msg.uri == msg.uri && r.msg.publishAttempts == 1
      && (r.ok <==> r.msg.state.PublishedState?) && (!r.ok ==> r.msg.state.FailedState?)
      && (r.ok <==> exists s <- r.sent :: s.result.Ok?)
      && (forall s <- r.sent :: s.retried && msg.payload == Some(s.content))
  {
    var r := RetryOne(env, msg, n, now);
    if r.sent != [] {
      assert r.sent[0] in r.sent;
    }
  }

  /** The row is still that of the record: its version, its account, its JSON, its message, and what it says of a deletion. */
  predicate IsSameRecord(row: Message, msg: Message) {
    && row.uri == msg.uri && row.cid == msg.cid && row.did == msg.did && row.collection == msg.collection && row.rawAt == msg.rawAt
    && row.payload == msg.payload && row.deletedAt == msg.deletedAt && row.deletedSeq == msg.deletedSeq && row.deletedReason == msg.deletedReason
  }

  /** A retry that publishes made one call, which the publisher answered with the reference that the row keeps. */
  lemma RetriedIsAnswer(env: Env, msg: Message, n: nat, now: int)
    requires env.publisher.Some?
    ensures var r := RetryOne(env, msg, n, now);
      && IsSameRecord(r.msg, msg) && |r.sent| <= 1 && r.msg.publishAttempts == 1 && r.msg.lastPublish == Some(now)
      && (r.sent != [] ==>
            && IsCallFor(r.sent[0], r.msg) && r.sent[0].retried
            && r.sent[0].result == env.publisher.value(n, msg.did, r.sent[0].content))
      && (r.msg.state.PublishedState? ==> r.sent != [] && r.sent[0].result == Ok(r.msg.ref) && r.msg.publishedAt == Some(now))
      && (r.sent != [] && !r.msg.state.PublishedState? ==>
            r.msg.state.FailedState? && r.sent[0].result.Err? && r.msg.publishError == r.sent[0].result.error)
      && Credits(r.msg, r.sent)
  {
  }

  /** No field of a message is internal. */
  ghost predicate Clean(content: Content) {
    forall field <- content :: !HasPrefix(FieldName(field), "_atproto_")
  }

  lemma SanitizedIsClean(content: Content)
    ensures Clean(Sanitized(content))
  {
    forall field <- Sanitized(content) ensures !HasPrefix(FieldName(field), "_atproto_") {
      BookkeepingIsPrefix(field);
    }
  }

  /**
   A retry sends the stored payload as it is. So a message that the lifecycle stored and that is retried,
   at once or after its deferral expired, goes out without internal fields exactly when the publisher
   had refused it, or when its mapping held no internal field to begin with.
   */
  lemma RetryIsCleanIff(env: Env, msg: Message, content: Content, blobError: Option<string>, n: nat, now: int, m: nat, later: int)
    requires env.publisher.Some? && msg.payload == Some(content)
    ensures var row := Decide(env, msg, content, blobError, n, now).msg;
      row.state.FailedState? || row.state.DeferredState? ==>
        var sent := RetryOne(env, Expired(row), m, later).sent;
        |sent| == 1 && (Clean(sent[0].content) <==> row.state.FailedState? || Clean(content))
  {
    SanitizedIsClean(content);
    StoredPayload(env, msg, content, blobError, n, now);
    var row := Decide(env, msg, content, blobError, n, now).msg;
    if row.payload.Some? {
      PayloadIsSent(env, Expired(row), row.payload.value, m, later);
    }
  }

  /** What the lifecycle stores as the payload of a message that it fails or defers. */
  lemma StoredPayload(env: Env, msg: Message, content: Content, blobError: Option<string>, n: nat, now: int)
    requires env.publisher.Some? && msg.payload == Some(content)
    ensures var row := Decide(env, msg, content, blobError, n, now).msg;
      && (row.state.FailedState? ==> row.payload == Some(Sanitized(content)))
      && (row.state.DeferredState? ==> row.payload == Some(content))
  {
  }

  lemma PayloadIsSent(env: Env, msg: Message, content: Content, n: nat, now: int)
    requires env.publisher.Some? && msg.payload == Some(content)
    ensures var sent := RetryOne(env, msg, n, now).sent; |sent| == 1 && sent[0].content == content
  {
  }

  /** In particular a deferred reference that never resolved is published with its internal field once it expired. */
  lemma ExpiredReferenceIsSent(env: Env, msg: Message, content: Content, blobError: Option<string>, n: nat, now: int, m: nat, later: int)
    requires env.publisher.Some? && msg.payload == Some(content) && UnresolvedRefs(content) != []
    ensures var sent := RetryOne(env, Expired(Decide(env, msg, content, blobError, n, now).msg), m, later).sent;
      |sent| == 1 && !Clean(sent[0].content)
  {
    UnresolvedUpToMeans(content, |CHECKED|);
    var i :| 0 <= i < |CHECKED| && Pending(content, CHECKED[i]);
    CheckedIsListed(CHECKED[i]);
    BookkeepingIsPrefix(CHECKED[i]);
    RetryIsCleanIff(env, msg, content, blobError, n, now, m, later);
  }

  method RetryMessage(p: RecordProcessor, msg: Message, now: int) returns (ok: bool)
    requires p.Valid() && p.env.publisher.Some?
    modifies p`sent, p`handled, p.db
    ensures p.Valid() && Later(old(p.State()), p.State())
    ensures var r := RetryOne(p.env, msg, |old(p.sent)|, now);
      ok == r.ok && p.db.rows == Upsert(old(p.db.rows), r.msg, now) && p.sent == old(p.sent) + r.sent
  {
    ghost var start := p.State();
    LaterReflexive(start);
    RetriedRowIsOk(p.env, msg, |p.sent|, now);
    var update := RetryRow(msg, now);
    if msg.payload.None? {
      update := update.(publishError := "retry decode mapped payload");
      p.Store(update, Rewrite(update.uri), now);
      return false;
    }
    var result := Publish(p.env, |p.sent|, msg.did, msg.payload.value);
    SentStaysOk(p.sent, [Sent(true, msg.uri, msg.did, msg.payload.value, result)]);
    p.sent := p.sent + [Sent(true, msg.uri, msg.did, msg.payload.value, result)];
    ghost var called := p.State();
    assert Onward(start, called) by { CallIsOnward(start, called); }
    ok := result.Ok?;
    update := if ok then Published(update, result.value, now).(publishError := "") else Failed(update, result.error);
    p.Store(update, Rewrite(update.uri), now);
    OnwardTransitive(start, called, p.State());
    RetriedIsAnswer(p.env, msg, |start.sent|, now);
    WriteIsAnswered(start.rows, update, now, called.sent[|start.sent|..]);
  }

  lemma CallIsOnward(a: World, b: World)
    requires a.rows == b.rows && a.handled == b.handled && a.sent <= b.sent
    ensures Onward(a, b)
  {
    OnwardReflexive(a);
  }

  // ---------------------------------------------------------------- one pass

  /** What the query for retry candidates returns: distinct rows that failed without a reference and have attempts left. */
  ghost predicate Candidates(rows: Rows, candidates: seq<Message>, maxAttempts: int) {
    && (forall c <- candidates :: c.uri in rows && rows[c.uri] == c && c.state.FailedState? && c.ref == "" && c.publishAttempts < maxAttempts)
    && (forall i, j :: 0 <= i < j < |candidates| ==> candidates[i].uri != candidates[j].uri)
  }

  /** Whether one of the first candidates is the row of a URI, and due. */
  ghost predicate Tried(candidates: seq<Message>, n: nat, now: int, base: int, uri: string)
    requires n <= |candidates|
  {
    exists i :: 0 <= i < n && candidates[i].uri == uri && Due(candidates[i], now, base)
  }

  /** Each row tried has one attempt more; every other row is as it was. */
  ghost predicate Passed(before: Rows, after: Rows, candidates: seq<Message>, n: nat, now: int, base: int)
    requires n <= |candidates|
  {
    forall uri :: uri in before ==> uri in after && RowPassed(before[uri], after[uri], Tried(candidates, n, now, base, uri))
  }

  predicate RowPassed(before: Message, after: Message, tried: bool) {
    if tried
    then after.publishAttempts == before.publishAttempts + 1 && (after.state.PublishedState? || after.state.FailedState?)
    else after == before
  }

  /** The candidates that are due and have a payload to send. */
  function Sendable(candidates: seq<Message>, n: nat, now: int, base: int): seq<Message>
    requires n <= |candidates|
  {
    if n == 0 then []
    else
      Sendable(candidates, n - 1, now, base)
        + if Due(candidates[n - 1], now, base) && candidates[n - 1].payload.Some? then [candidates[n - 1]] else []
  }

  /** The calls made are one for each of these rows, in turn, each with the stored payload as it is and the publisher's answer. */
  ghost predicate SentEach(env: Env, before: seq<Sent>, after: seq<Sent>, rows: seq<Message>)
    requires env.publisher.Some?
  {
    && |after| == |before| + |rows| && before <= after
    && forall i :: 0 <= i < |rows| ==> IsRetryOf(env, |before| + i, after[|before| + i], rows[i])
  }

  predicate IsRetryOf(env: Env, n: nat, s: Sent, row: Message)
    requires env.publisher.Some?
  {
    s.retried && s.uri == row.uri && s.did == row.did && row.payload == Some(s.content) && s.result == env.publisher.value(n, s.did, s.content)
  }

  lemma CallIsRetry(env: Env, msg: Message, n: nat, now: int)
    requires env.publisher.Some?
    ensures var sent := RetryOne(env, msg, n, now).sent;
      if msg.payload.Some? then |sent| == 1 && IsRetryOf(env, n, sent[0], msg) else sent == []
  {
  }

  lemma SentOneMore(env: Env, before: seq<Sent>, sent: seq<Sent>, more: seq<Sent>, rows: seq<Message>, row: Message)
    requires env.publisher.Some? && SentEach(env, before, sent, rows)
    requires |more| == 1 && IsRetryOf(env, |sent|, more[0], row)
    ensures SentEach(env, before, sent + more, rows + [row])
  {
  }

  /** What a pass has come to after its first candidates. */
  ghost predicate SoFar(env: Env, start: World, w: World, candidates: seq<Message>, n: nat, now: int, base: int)
    requires env.publisher.Some? && n <= |candidates|
  {
    && Later(start, w) && Passed(start.rows, w.rows, candidates, n, now, base)
    && SentEach(env, start.sent, w.sent, Sendable(candidates, n, now, base))
  }

  lemma NotDueSoFar(env: Env, start: World, w: World, candidates: seq<Message>, i: nat, now: int, base: int)
    requires env.publisher.Some? && i < |candidates| && SoFar(env, start, w, candidates, i, now, base) && !Due(candidates[i], now, base)
    ensures SoFar(env, start, w, candidates, i + 1, now, base)
  {
    NotTried(start.rows, w.rows, candidates, i, now, base);
  }

  lemma TriedSoFar(env: Env, start: World, w: World, after: World, candidates: seq<Message>, i: nat, now: int, base: int, maxAttempts: int)
    requires env.publisher.Some? && PublisherOk(env) && i < |candidates| && Candidates(start.rows, candidates, maxAttempts)
    requires SoFar(env, start, w, candidates, i, now, base) && Due(candidates[i], now, base) && Later(w, after)
    requires var r := RetryOne(env, candidates[i], |w.sent|, now); after.rows == Upsert(w.rows, r.msg, now) && after.sent == w.sent + r.sent
    ensures SoFar(env, start, after, candidates, i + 1, now, base)
  {
    var r := RetryOne(env, candidates[i], |w.sent|, now);
    RetriedRowIsOk(env, candidates[i], |w.sent|, now);
    TriedNow(start.rows, w.rows, candidates, i, now, base, maxAttempts, r.msg);
    LaterTransitive(start, w, after);
    TriedIsSent(env, start.sent, w.sent, candidates, i, now, base);
  }

  lemma TriedIsSent(env: Env, before: seq<Sent>, sent: seq<Sent>, candidates: seq<Message>, i: nat, now: int, base: int)
    requires env.publisher.Some? && i < |candidates| && Due(candidates[i], now, base)
    requires SentEach(env, before, sent, Sendable(candidates, i, now, base))
    ensures SentEach(env, before, sent + RetryOne(env, candidates[i], |sent|, now).sent, Sendable(candidates, i + 1, now, base))
  {
    var more := RetryOne(env, candidates[i], |sent|, now).sent;
    CallIsRetry(env, candidates[i], |sent|, now);
    if candidates[i].payload.Some? {
      SentOneMore(env, before, sent, more, Sendable(candidates, i, now, base), candidates[i]);
    } else {
      assert sent + more == sent;
    }
  }

  /** How many candidates are due, and how many calls the publisher accepted. */
  function DueCount(candidates: seq<Message>, n: nat, now: int, base: int): nat
    requires n <= |candidates|
  {
    if n == 0 then 0 else DueCount(candidates, n - 1, now, base) + if Due(candidates[n - 1], now, base) then 1 else 0
  }

  function AcceptedCount(sent: seq<Sent>): nat {
    if sent == [] then 0 else AcceptedCount(sent[..|sent| - 1]) + if sent[|sent| - 1].result.Ok? then 1 else 0
  }

  lemma AcceptedOneMore(env: Env, sent: seq<Sent>, msg: Message, now: int)
    requires env.publisher.Some?
    ensures var r := RetryOne(env, msg, |sent|, now);
      AcceptedCount(sent + r.sent) == AcceptedCount(sent) + if r.ok then 1 else 0
  {
    var r := RetryOne(env, msg, |sent|, now);
    if r.sent == [] {
      assert sent + r.sent == sent;
    } else {
      assert r.sent == [r.sent[0]] && (sent + r.sent)[..|sent + r.sent| - 1] == sent;
    }
  }

  datatype Tally = Tally(selected: nat, attempted: nat, published: nat, failed: nat, deferred: nat)

  /** Retries one candidate if it is due, in a pass that began in the world `start`. */
  method TryCandidate(p: RecordProcessor, candidates: seq<Message>, i: nat, now: int, base: int64, ghost start: World, ghost maxAttempts: int)
    returns (tried: bool, ok: bool)
    requires p.Valid() && p.env.publisher.Some? && i < |candidates| && Candidates(start.rows, candidates, maxAttempts)
    requires SoFar(p.env, start, p.State(), candidates, i, now, base as int)
    modifies p`sent, p`handled, p.db
    ensures p.Valid() && SoFar(p.env, start, p.State(), candidates, i + 1, now, base as int)
    ensures tried <==> Due(candidates[i], now, base as int)
    ensures AcceptedCount(p.sent) == AcceptedCount(old(p.sent)) + (if tried && ok then 1 else 0)
  {
    ghost var w := p.State();
    if !Due(candidates[i], now, base as int) {
      NotDueSoFar(p.env, start, w, candidates, i, now, base as int);
      return false, false;
    }
    AcceptedOneMore(p.env, p.sent, candidates[i], now);
    ok := RetryMessage(p, candidates[i], now);
    TriedSoFar(p.env, start, w, p.State(), candidates, i, now, base as int, maxAttempts);
    return true, ok;
  }

  lemma NothingTried(env: Env, start: World, candidates: seq<Message>, now: int, base: int)
    requires env.publisher.Some?
    ensures SoFar(env, start, start, candidates, 0, now, base)
  {
    LaterReflexive(start);
  }

  /** A tally of the first candidates, so many of which were due, with so many calls accepted. */
  predicate Tallies(tally: Tally, selected: nat, n: nat, due: int, accepted: int) {
    && tally.selected == selected && tally.attempted + tally.deferred == n
    && tally.attempted == due && tally.published == accepted && tally.failed == due - accepted
  }

  function Counting(tally: Tally, tried: bool, ok: bool): Tally {
    if !tried then tally.(deferred := tally.deferred + 1)
    else if ok then tally.(attempted := tally.attempted + 1, published := tally.published + 1)
    else tally.(attempted := tally.attempted + 1, failed := tally.failed + 1)
  }

  method RetryCandidates(p: RecordProcessor, candidates: seq<Message>, now: int, base: int64, ghost maxAttempts: int) returns (tally: Tally)
    requires p.Valid() && p.env.publisher.Some? && Candidates(p.db.rows, candidates, maxAttempts)
    modifies p`sent, p`handled, p.db
    ensures p.Valid() && SoFar(p.env, old(p.State()), p.State(), candidates, |candidates|, now, base as int)
    ensures Tallies(tally, |candidates|, |candidates|, DueCount(candidates, |candidates|, now, base as int),
      AcceptedCount(p.sent) - AcceptedCount(old(p.sent)))
  {
    ghost var start := p.State();
    NothingTried(p.env, start, candidates, now, base as int);
    tally := Tally(|candidates|, 0, 0, 0, 0);
    for i := 0 to |candidates|
      invariant p.Valid() && SoFar(p.env, start, p.State(), candidates, i, now, base as int)
      invariant Tallies(tally, |candidates|, i, DueCount(candidates, i, now, base as int), AcceptedCount(p.sent) - AcceptedCount(start.sent))
    {
      var tried, ok := TryCandidate(p, candidates, i, now, base, start, maxAttempts);
      tally := Counting(tally, tried, ok);
    }
  }

  /** Retries the candidates that are due. Without a publisher nothing can be retried. */
  method RetryFailedMessages(p: RecordProcessor, candidates: seq<Message>, maxAttempts: int, base: int64, now: int)
    returns (result: Result<Tally>)
    requires p.Valid() && Candidates(p.db.rows, candidates, maxAttempts)
    modifies p`sent, p`handled, p.db
    ensures p.Valid() && Later(old(p.State()), p.State())
    ensures result.Err? <==> p.env.publisher.None?
    ensures result.Err? ==> p.State() == old(p.State())
    ensures result.Ok? ==>
      && result.value.selected == |candidates| == result.value.attempted + result.value.deferred
      && result.value.attempted == result.value.published + result.value.failed == DueCount(candidates, |candidates|, now, base as int)
      && result.value.published == AcceptedCount(p.sent) - AcceptedCount(old(p.sent))
      && Passed(old(p.db.rows), p.db.rows, candidates, |candidates|, now, base as int)
      && SentEach(p.env, old(p.sent), p.sent, Sendable(candidates, |candidates|, now, base as int))
  {
    ghost var start := p.State();
    LaterReflexive(start);
    if p.env.publisher.None? {
      return Err("retry requires configured publisher");
    }
    var tally := RetryCandidates(p, candidates, now, base, maxAttempts);
    return Ok(tally);
  }

  lemma NotTried(before: Rows, rows: Rows, candidates: seq<Message>, i: nat, now: int, base: int)
    requires i < |candidates| && Passed(before, rows, candidates, i, now, base) && !Due(candidates[i], now, base)
    ensures Passed(before, rows, candidates, i + 1, now, base)
  {
    forall uri | uri in before ensures uri in rows && RowPassed(before[uri], rows[uri], Tried(candidates, i + 1, now, base, uri)) {
      TriedOneMore(candidates, i, now, base, uri);
    }
  }

  lemma TriedOneMore(candidates: seq<Message>, i: nat, now: int, base: int, uri: string)
    requires i < |candidates|
    ensures Tried(candidates, i + 1, now, base, uri)
        <==> Tried(candidates, i, now, base, uri) || (candidates[i].uri == uri && Due(candidates[i], now, base))
  {
  }

  lemma TriedNow(before: Rows, rows: Rows, candidates: seq<Message>, i: nat, now: int, base: int, maxAttempts: int, msg: Message)
    requires i < |candidates| && Candidates(before, candidates, maxAttempts)
    requires Passed(before, rows, candidates, i, now, base) && Due(candidates[i], now, base)
    requires msg.uri == candidates[i].uri && msg.publishAttempts == 1 && (msg.state.PublishedState? || msg.state.FailedState?)
    ensures Passed(before, Upsert(rows, msg, now), candidates, i + 1, now, base)
  {
    var after := Upsert(rows, msg, now);
    assert candidates[i] in candidates;
    assert !Tried(candidates, i, now, base, msg.uri);
    assert RowPassed(before[msg.uri], rows[msg.uri], false);
    forall uri | uri in before ensures uri in after && RowPassed(before[uri], after[uri], Tried(candidates, i + 1, now, base, uri)) {
      TriedOneMore(candidates, i, now, base, uri);
      assert RowPassed(before[uri], rows[uri], Tried(candidates, i, now, base, uri));
    }
  }

  // ---------------------------------------------------------------- many passes

  /** One pass: the table before it, what it selected and when, and the table after it. */
  datatype PassRecord = PassRecord(before: Rows, candidates: seq<Message>, now: int, after: Rows)

  /** Passes in a row, nothing else writing in between. */
  ghost predicate Passes(start: Rows, passes: seq<PassRecord>, maxAttempts: int, base: int) {
    passes != [] ==>
      var n := |passes| - 1;
      && Passes(start, passes[..n], maxAttempts, base)
      && passes[n].before == RowsAfter(start, passes[..n])
      && Candidates(passes[n].before, passes[n].candidates, maxAttempts)
      && Passed(passes[n].before, passes[n].after, passes[n].candidates, |passes[n].candidates|, passes[n].now, base)
  }

  function RowsAfter(start: Rows, passes: seq<PassRecord>): Rows {
    if passes == [] then start else passes[|passes| - 1].after
  }

  ghost function Tries(passes: seq<PassRecord>, base: int, uri: string): nat {
    if passes == [] then 0
    else
      var last := passes[|passes| - 1];
      Tries(passes[..|passes| - 1], base, uri) + if Tried(last.candidates, |last.candidates|, last.now, base, uri) then 1 else 0
  }

  function Max(a: int, b: int): int {
    if a >= b then a else b
  }

  /** However many passes there are, a row gets no more tries than it had attempts left. */
  lemma {:induction false} TriesAreBounded(start: Rows, passes: seq<PassRecord>, maxAttempts: int, base: int, uri: string)
    requires Passes(start, passes, maxAttempts, base) && uri in start
    ensures uri in RowsAfter(start, passes)
    ensures RowsAfter(start, passes)[uri].publishAttempts == start[uri].publishAttempts + Tries(passes, base, uri)
    ensures Tries(passes, base, uri) <= Max(0, maxAttempts - start[uri].publishAttempts)
  {
    if passes != [] {
      var n := |passes| - 1;
      var last := passes[n];
      TriesAreBounded(start, passes[..n], maxAttempts, base, uri);
      assert RowPassed(last.before[uri], last.after[uri], Tried(last.candidates, |last.candidates|, last.now, base, uri));
      if Tried(last.candidates, |last.candidates|, last.now, base, uri) {
        TriedHadAttemptsLeft(last.before, last.candidates, maxAttempts, last.now, base, uri);
      }
    }
  }

  lemma TriedHadAttemptsLeft(rows: Rows, candidates: seq<Message>, maxAttempts: int, now: int, base: int, uri: string)
    requires Candidates(rows, candidates, maxAttempts) && Tried(candidates, |candidates|, now, base, uri)
    ensures uri in rows && rows[uri].publishAttempts < maxAttempts
  {
    var i :| 0 <= i < |candidates| && candidates[i].uri == uri && Due(candidates[i], now, base);
    assert candidates[i] in candidates;
  }
}
