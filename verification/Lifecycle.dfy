/**
 The one place where a mapped message is deferred, left pending, published or failed.

 The module proves that whatever is published here has every reference resolved, carries no internal
 field and is complete for its type, and that the row it leaves behind keeps its promise.
 */
module Lifecycle {
  import opened Wrappers
  import opened Text
  import opened Mapper
  import opened DeferReason
  import opened Messages

  const INCOMPLETE := "missing_required_fields_after_sanitize"

  /** A record fetched from its host. */
  datatype Fetched = Fetched(did: string, uri: string, cid: string, collection: Collection, json: string)

  /**
   The bridge's surroundings. The publisher and the fetcher, where configured, may answer each numbered
   call differently; `feeds` finds the feed of a DID, if it has one, and `blobs` the error of bridging
   the blobs of a record, if there is one.
   */
  datatype Env = Env(
    codec: Codec,
    publisher: Option<(nat, string, Content) -> Result<string>>,
    fetcher: Option<(nat, string) -> Result<Fetched>>,
    feeds: string -> string,
    blobs: string -> Option<string>)

  /** The reference of a published message is never blank. */
  ghost predicate PublisherOk(env: Env) {
    env.publisher.Some? ==>
      forall n, did, content :: var r := env.publisher.value(n, did, content); r.Ok? ==> !Blank(r.value)
  }

  function Publish(env: Env, n: nat, did: string, content: Content): (r: Result<string>)
    requires env.publisher.Some?
    ensures PublisherOk(env) && r.Ok? ==> !Blank(r.value)
  {
    env.publisher.value(n, did, content)
  }

  /** A call to the publisher, for the record of a URI; `retried` when it sent a stored payload again. */
  datatype Sent = Sent(retried: bool, uri: string, did: string, content: Content, result: Result<string>)

  /** What the lifecycle makes of a message: its row, its content, and the calls to the publisher, at most one. */
  datatype Decision = Decision(msg: Message, content: Content, sent: seq<Sent>)

  function Annotated(current: string, blobError: Option<string>): string {
    match blobError
    case None => current
    case Some(error) =>
      var note := "blob_fallback=" + error;
      if Blank(current) then note else current + "; " + note
  }

  function Deferred(msg: Message, reason: string, now: int): Message {
    msg.(state := DeferredState, deferReason := reason, deferAttempts := 1, lastDefer := Some(now))
  }

  function Attempted(msg: Message, now: int): Message {
    msg.(publishAttempts := 1, lastPublish := Some(now))
  }

  function Failed(msg: Message, error: string): Message {
    msg.(state := FailedState, publishError := error)
  }

  function Published(msg: Message, ref: string, now: int): Message {
    msg.(state := PublishedState, ref := ref, publishedAt := Some(now))
  }

  /** Sends a complete message: `n` counts the calls to the publisher so far. */
  function Dispatch(env: Env, msg: Message, content: Content, blobError: Option<string>, n: nat, now: int): Decision
    requires env.publisher.Some?
  {
    var attempted := Attempted(msg.(payload := Some(content)), now).(deferReason := "");
    var result := Publish(env, n, msg.did, content);
    var sent := [Sent(false, msg.uri, msg.did, content, result)];
    match result
    case Err(error) => Decision(Failed(attempted, Annotated(error, blobError)), content, sent)
    case Ok(ref) =>
      var published := Published(attempted, ref, now);
      Decision(if blobError.None? then published else published.(publishError := Annotated("", blobError)), content, sent)
  }

  function Decide(env: Env, msg: Message, content: Content, blobError: Option<string>, n: nat, now: int): Decision {
    if UnresolvedRefs(content) != [] then
      var deferred := Deferred(msg, ReasonOf(content), now);
      Decision(deferred.(publishError := Annotated(deferred.publishError, blobError)), content, [])
    else if env.publisher.None? then
      Decision(msg.(state := PendingState, publishError := Annotated(msg.publishError, blobError)), content, [])
    else
      var clean := Sanitized(content);
      if !Ready(clean) then Decision(Deferred(msg, INCOMPLETE, now), clean, [])
      else Dispatch(env, msg, clean, blobError, n, now)
  }

  // ---------------------------------------------------------------- what is decided

  /** A published message names no internal field and is complete for its type. */
  ghost predicate Presentable(content: Content) {
    && (forall field <- content :: !HasPrefix(FieldName(field), "_atproto_"))
    && Ready(content)
  }

  lemma SanitizedIsPresentable(content: Content)
    requires Ready(Sanitized(content))
    ensures Presentable(Sanitized(content))
  {
    forall field <- Sanitized(content) ensures !HasPrefix(FieldName(field), "_atproto_") {
      BookkeepingIsPrefix(field);
    }
  }

  /** Everything the lifecycle sends is presentable, and is the message with nothing unresolved left in it. */
  lemma SendsOnlyResolved(env: Env, msg: Message, content: Content, blobError: Option<string>, n: nat, now: int)
    ensures forall s <- Decide(env, msg, content, blobError, n, now).sent ::
      !s.retried && s.content == Sanitized(content) && UnresolvedRefs(content) == [] && Presentable(s.content)
  {
    if UnresolvedRefs(content) == [] && env.publisher.Some? && Ready(Sanitized(content)) {
      SanitizedIsPresentable(content);
    }
  }

  /** When a message is published: nothing unresolved, complete, and the publisher accepts it. */
  predicate Publishes(env: Env, did: string, content: Content, n: nat) {
    && UnresolvedRefs(content) == [] && env.publisher.Some? && Ready(Sanitized(content))
    && Publish(env, n, did, Sanitized(content)).Ok?
  }

  /** The state decided on, for every message. */
  lemma DecidedState(env: Env, msg: Message, content: Content, blobError: Option<string>, n: nat, now: int)
    ensures var state := Decide(env, msg, content, blobError, n, now).msg.state;
      && (state.PublishedState? <==> Publishes(env, msg.did, content, n))
      && (state.DeferredState? <==>
            UnresolvedRefs(content) != [] || (env.publisher.Some? && !Ready(Sanitized(content))))
      && (state.PendingState? <==> UnresolvedRefs(content) == [] && env.publisher.None?)
      && (state.PublishedState? || state.DeferredState? || state.PendingState? || state.FailedState?)
  {
  }

  /** The one call made for a message: for the record of the row, as its account, with the content that the row keeps. */
  predicate IsCallFor(s: Sent, row: Message) {
    s.uri == row.uri && s.did == row.did && row.payload == Some(s.content)
  }

  /** What a decision owes to the one call it made: the publisher's answer, which the row keeps, whatever it is. */
  predicate KeepsAnswer(env: Env, d: Decision, n: nat, now: int) {
    && |d.sent| == 1 && env.publisher.Some? && IsCallFor(d.sent[0], d.msg) && !d.sent[0].retried
    && d.sent[0].result == env.publisher.value(n, d.msg.did, d.sent[0].content)
    && d.msg.publishAttempts == 1 && d.msg.lastPublish == Some(now)
    && match d.sent[0].result
       case Ok(ref) => d.msg.state.PublishedState? && d.msg.ref == ref && d.msg.publishedAt == Some(now)
       case Err(error) => d.msg.state.FailedState? && (Blank(error) || HasPrefix(d.msg.publishError, error))
  }

  lemma DispatchKeepsAnswer(env: Env, msg: Message, content: Content, blobError: Option<string>, n: nat, now: int)
    requires env.publisher.Some?
    ensures var d := Dispatch(env, msg, content, blobError, n, now);
      KeepsAnswer(env, d, n, now) && d.msg.uri == msg.uri && d.msg.did == msg.did && d.sent[0].content == content
  {
    var result := Publish(env, n, msg.did, content);
    if result.Err? && !Blank(result.error) {
      assert HasPrefix(Annotated(result.error, blobError), result.error);
    }
  }

  /**
   A message that is sent is sent by exactly one call, in its own name and sanitized, and its row keeps the publisher's
   answer: published with the reference it gave, or failed with its error. One that is not sent is not published.
   */
  lemma PublishedIsAnswer(env: Env, msg: Message, content: Content, blobError: Option<string>, n: nat, now: int)
    ensures var d := Decide(env, msg, content, blobError, n, now);
      && d.msg.uri == msg.uri && d.msg.did == msg.did
      && (d.sent != [] ==> KeepsAnswer(env, d, n, now) && d.sent[0].content == Sanitized(content))
      && (d.sent == [] ==> !d.msg.state.PublishedState? && !d.msg.state.FailedState?)
  {
    if Sends(env, content) {
      DispatchKeepsAnswer(env, msg, Sanitized(content), blobError, n, now);
    }
  }

  /** A message that is deferred says why: the references it waits for, or that it is incomplete; it counts one deferral. */
  lemma DeferredSaysWhy(env: Env, msg: Message, content: Content, blobError: Option<string>, n: nat, now: int)
    ensures var d := Decide(env, msg, content, blobError, n, now);
      d.msg.state.DeferredState? ==>
        && d.msg.deferReason == (if UnresolvedRefs(content) != [] then ReasonOf(content) else INCOMPLETE)
        && d.msg.deferAttempts == 1 && d.msg.lastDefer == Some(now) && d.msg.payload == msg.payload && d.msg.ref == msg.ref
  {
  }

  /** An error of bridging blobs, noted after what was said before. */
  predicate IsNoted(before: string, error: string, text: string) {
    text == if Blank(before) then "blob_fallback=" + error else before + "; blob_fallback=" + error
  }

  /** What a decision says besides its blobs: the publisher's error, nothing once it accepted, and else what the row said. */
  function SaidBy(d: Decision, msg: Message): string {
    if d.sent == [] then msg.publishError else if d.sent[0].result.Err? then d.sent[0].result.error else ""
  }

  lemma AnnotatedIsNoted(before: string, error: string)
    ensures IsNoted(before, error, Annotated(before, Some(error)))
  {
  }

  lemma DispatchAnnotates(env: Env, msg: Message, content: Content, error: string, n: nat, now: int)
    requires env.publisher.Some?
    ensures var d := Dispatch(env, msg, content, Some(error), n, now);
      d.msg.publishError == Annotated(SaidBy(d, msg), Some(error)) && !d.msg.state.DeferredState?
  {
    match Publish(env, n, msg.did, content)
    case Err(_) =>
    case Ok(_) =>
  }

  lemma DecisionAnnotates(env: Env, msg: Message, content: Content, error: string, n: nat, now: int)
    requires !Sends(env, content)
    ensures var d, incomplete := Decide(env, msg, content, Some(error), n, now), env.publisher.Some? && UnresolvedRefs(content) == [];
      && d.sent == [] && d.msg.publishError == (if incomplete then msg.publishError else Annotated(msg.publishError, Some(error)))
      && (d.msg.state.DeferredState? <==> env.publisher.Some? || UnresolvedRefs(content) != [])
  {
  }

  /** Whatever is decided, the row notes an error of bridging its blobs, unless the message is found incomplete. */
  lemma BlobErrorIsNoted(env: Env, msg: Message, content: Content, error: string, n: nat, now: int)
    ensures var d := Decide(env, msg, content, Some(error), n, now);
      if d.msg.state.DeferredState? && UnresolvedRefs(content) == [] then d.msg.publishError == msg.publishError
      else IsNoted(SaidBy(d, msg), error, d.msg.publishError)
  {
    AnnotatedIsNoted(SaidBy(Decide(env, msg, content, Some(error), n, now), msg), error);
    if Sends(env, content) {
      DispatchAnnotates(env, msg, Sanitized(content), error, n, now);
    } else {
      DecisionAnnotates(env, msg, content, error, n, now);
    }
  }

  /** When a message goes to the publisher at all. */
  predicate Sends(env: Env, content: Content) {
    UnresolvedRefs(content) == [] && env.publisher.Some? && Ready(Sanitized(content))
  }

  /** A message is sent once when it is resolved and complete, and otherwise not at all. */
  lemma DecidedSends(env: Env, msg: Message, content: Content, blobError: Option<string>, n: nat, now: int)
    ensures |Decide(env, msg, content, blobError, n, now).sent| == if Sends(env, content) then 1 else 0
  {
  }

  lemma {:induction false} JoinedIsNotEmpty(parts: seq<string>)
    requires parts != [] && forall p <- parts :: p != ""
    ensures Join(parts) != ""
  {
    assert parts[0] in parts;
  }

  lemma {:induction false} UnresolvedAreNotEmpty(content: Content, n: nat)
    requires n <= |CHECKED|
    ensures forall p <- UnresolvedUpTo(content, n) :: p != ""
  {
    if n > 0 {
      UnresolvedAreNotEmpty(content, n - 1);
    }
  }

  /** The decision keeps the row's promise. */
  lemma DecidedRowIsOk(env: Env, msg: Message, content: Content, blobError: Option<string>, n: nat, now: int)
    requires PublisherOk(env) && msg.ref == ""
    ensures RowOk(Decide(env, msg, content, blobError, n, now).msg)
    ensures Decide(env, msg, content, blobError, n, now).msg.uri == msg.uri
  {
    if UnresolvedRefs(content) != [] {
      UnresolvedAreNotEmpty(content, |CHECKED|);
      JoinedIsNotEmpty(UnresolvedRefs(content));
    }
  }
}
