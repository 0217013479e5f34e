/**
 Carrying out reverse events: a cursor moves over the receive log, each message is turned into an event
 at most once, and a failed or deferred event can be retried.

 The module proves that a message causes at most one successful remote write, exactly when its event
 is published; that published and skipped events never change again; that the cursor never passes a
 message that was not dealt with, and exactly which message stops a batch; and that a record created
 this way is recognised when it comes back.
 */
module ReverseSync {
  import opened Wrappers
  import opened Text
  import opened RichText
  import opened Mapper
  import opened Messages
  import opened ReverseEvents
  import Processor

  const DEFAULT_LIMIT := 100

  datatype Images = ImagesFailed(error: string) | ImagesDeferred(reason: string) | ImagesReady(embedded: set<string>, count: nat, text: string)
  datatype Avatar = AvatarFailed(error: string) | AvatarDeferred(reason: string) | AvatarReady(set_: bool)
  datatype Created = Created(uri: string, cid: string, rawAt: string)

  /**
   The surroundings. Remote answers may differ from one moment and message to the next. `credential`
   gives the reason why an account has no usable credential, if it has none; `urls` finds the bare URLs
   of a text and `payload` reads back a stored message.
   */
  datatype Env = Env(
    decode: string -> Option<Ssb>,
    lookups: Lookups,
    credential: (int, string) -> Option<string>,
    session: (int, int) -> Option<string>,
    images: (int, int, Ssb, string) -> Images,
    avatar: (int, int, Ssb) -> Avatar,
    create: (int, int, Record) -> Result<Created>,
    remove: (int, int, string) -> Option<string>,
    urls: string -> seq<Range>,
    payload: string -> Option<Content>)

  /** A successful write to a remote repository, on behalf of a source message. */
  datatype RemoteOp = RemoteOp(ref: string, uri: string, deleted: bool)

  /** Why the cursor passed a message. */
  datatype Disposition = Malformed | AlreadyHandled | NotMapped | NotTranslated | Recorded

  /** `accounts` maps the feeds of active bridged accounts to their DIDs; `passed` says why the cursor passed each message. */
  datatype Tables = Tables(
    events: Events,
    rows: Rows,
    mappings: map<string, Mapping>,
    accounts: map<string, string>,
    cursor: nat,
    passed: seq<Disposition>,
    remote: seq<RemoteOp>)

  /** What handling one message did; None when it was not finished. */
  datatype Handled = Handled(t: Tables, disposition: Option<Disposition>)

  // ---------------------------------------------------------------- the event table

  function NullIfBlank(s: string): string {
    if Blank(s) then "" else s
  }

  function Stored(e: Event): Event {
    e.(targetRef := NullIfBlank(e.targetRef), targetFeed := NullIfBlank(e.targetFeed), targetDid := NullIfBlank(e.targetDid),
       targetUri := NullIfBlank(e.targetUri), targetCid := NullIfBlank(e.targetCid),
       resultUri := NullIfBlank(e.resultUri), resultCid := NullIfBlank(e.resultCid))
  }

  /** An event without a source, an author, an account or an action is refused. */
  predicate Acceptable(e: Event) {
    !Blank(e.ref) && !Blank(e.author) && !Blank(e.did) && !e.action.NoAction?
  }

  /** Writing an event replaces the row but adds up its attempts. */
  function AddEvent(events: Events, e: Event): Option<Events> {
    if !Acceptable(e) then None
    else
      var stored := Stored(e);
      Some(events[e.ref := if e.ref in events then stored.(attempts := events[e.ref].attempts + e.attempts) else stored])
  }

  function Persist(t: Tables, e: Event): Handled {
    match AddEvent(t.events, e)
    case None => Handled(t, None)
    case Some(events) => Handled(t.(events := events), Some(Recorded))
  }

  // ---------------------------------------------------------------- carrying out an event

  /** The account of a feed: from an active mapping first, then from an active bridged account. */
  function DidOf(mappings: map<string, Mapping>, accounts: map<string, string>, name: string): Option<string> {
    var feed := Trim(name);
    if feed == "" then None
    else if feed in mappings && mappings[feed].active then Some(mappings[feed].did)
    else if feed in accounts then Some(accounts[feed])
    else None
  }

  function DidLookupOf(mappings: map<string, Mapping>, accounts: map<string, string>): string -> Option<string> {
    (name: string) => DidOf(mappings, accounts, name)
  }

  function DidAnswerOf(mappings: map<string, Mapping>, accounts: map<string, string>): string -> Result<Option<string>> {
    (name: string) => Ok(DidOf(mappings, accounts, name))
  }

  predicate RangesFit(text: string, urls: seq<Range>) {
    forall i :: 0 <= i < |urls| ==> urls[i].start <= urls[i].end <= |text|
  }

  function UrlsOf(env: Env, text: string): (urls: seq<Range>)
    ensures RangesFit(text, urls)
  {
    if RangesFit(text, env.urls(text)) then env.urls(text) else []
  }

  datatype Enriched = EnrichFailed(error: string) | EnrichDeferred(reason: string) | EnrichReady(record: Record)

  /** Completes a post with its images and facets, or a profile with its avatar. */
  function Enrich(env: Env, t: Tables, seqNo: int, content: Ssb, record: Record, now: int): Enriched {
    match record
    case PostRecord(text, thread, _, _) =>
      (match env.images(now, seqNo, content, text)
       case ImagesFailed(error) => EnrichFailed(error)
       case ImagesDeferred(reason) => EnrichDeferred(reason)
       case ImagesReady(embedded, count, stripped) =>
         (match ReverseFacets(stripped, content.mentions, embedded, DidAnswerOf(t.mappings, t.accounts), UrlsOf(env, stripped))
          case Err(error) => EnrichFailed(error)
          case Ok(facets) => EnrichReady(PostRecord(stripped, thread, facets, count))))
    case ProfileRecord(name, description, _) =>
      (match env.avatar(now, seqNo, content)
       case AvatarFailed(error) => EnrichFailed(error)
       case AvatarDeferred(reason) => EnrichDeferred(reason)
       case AvatarReady(set_) => EnrichReady(ProfileRecord(name, description, set_)))
    case _ => EnrichReady(record)
  }

  function Thread(record: Record): (string, string) {
    if record.PostRecord? && record.thread.Some?
    then (Trim(record.thread.value.root.uri), Trim(record.thread.value.parent.uri))
    else ("", "")
  }

  /** The row that makes the bridge recognise its own record when it comes back. */
  function CorrelationRow(env: Env, e: Event, record: Record): Message {
    var (root, parent) := Thread(record);
    Message(e.resultUri, e.resultCid, e.ref, e.did, if e.collection.Some? then e.collection.value else Unsupported(""),
      PublishedState, e.rawAt, env.payload(e.rawSsb), e.publishedAt, "", 0, None, "", 0, None, None, None, "", root, parent, None)
  }

  function Correlated(env: Env, t: Tables, e: Event, record: Record, now: int): Tables {
    if Blank(e.resultUri) then t else t.(rows := Upsert(t.rows, CorrelationRow(env, e, record), now))
  }

  function Noted(t: Tables, ref: string, uri: string, deleted: bool): Tables {
    t.(remote := t.remote + [RemoteOp(ref, uri, deleted)])
  }

  function Failing(e: Event, error: string): Event {
    e.(state := Failed, error := error)
  }

  function Deferring(e: Event, reason: string): Event {
    e.(state := Deferred, reason := reason, error := "")
  }

  function Deleted(e: Event, uri: string, now: int): Event {
    e.(state := Published, publishedAt := Some(now), resultUri := uri, rawAt := "{\"op\":\"delete\",\"at_uri\":\"" + uri + "\"}")
  }

  function Succeeded(e: Event, created: Created, now: int): Event {
    e.(state := Published, publishedAt := Some(now), resultUri := created.uri, resultCid := created.cid, rawAt := created.rawAt)
  }

  function WriteDeletion(env: Env, t: Tables, seqNo: int, e: Event, deleteUri: string, now: int): Handled {
    match env.remove(now, seqNo, deleteUri)
    case Some(error) => Persist(t, Failing(e, error))
    case None => Persist(Noted(t, e.ref, deleteUri, true), Deleted(e, deleteUri, now))
  }

  function WriteRecord(env: Env, t: Tables, seqNo: int, e: Event, record: Record, now: int): Handled {
    match env.create(now, seqNo, record)
    case Err(error) => Persist(t, Failing(e, error))
    case Ok(created) =>
      var published := Succeeded(e, created, now);
      Persist(Correlated(env, Noted(t, e.ref, created.uri, false), published, record, now), published)
  }

  /** Deletes or creates the remote record of an event, within a session. */
  function Write(env: Env, t: Tables, seqNo: int, content: Ssb, e: Event, record: Record, deleteUri: string, now: int): Handled {
    if e.action.UnfollowAction? then WriteDeletion(env, t, seqNo, e, deleteUri, now)
    else WriteEnriched(env, t, seqNo, e, Enrich(env, t, seqNo, content, record, now), now)
  }

  function WriteEnriched(env: Env, t: Tables, seqNo: int, e: Event, enriched: Enriched, now: int): Handled {
    match enriched
    case EnrichFailed(error) => Persist(t, Failing(e, error))
    case EnrichDeferred(reason) => Persist(t, Deferring(e, reason))
    case EnrichReady(ready) => WriteRecord(env, t, seqNo, e, ready, now)
  }

  function CarryOut(env: Env, t: Tables, seqNo: int, content: Ssb, e: Event, record: Record, deleteUri: string, now: int): Handled {
    match env.credential(now, e.did)
    case Some(reason) => Persist(t, Deferring(e, "credentials_" + reason))
    case None =>
      var attempted := e.(attempts := 1, lastAttempt := Some(now));
      match env.session(now, seqNo)
      case Some(error) => Persist(t, Failing(attempted, error))
      case None => Write(env, t, seqNo, content, attempted, record, deleteUri, now)
  }

  // ---------------------------------------------------------------- one message

  function Trimmed(m: Incoming): Incoming {
    m.(ref := Trim(m.ref), author := Trim(m.author))
  }

  predicate Mapped(t: Tables, author: string) {
    author in t.mappings && t.mappings[author].active
  }

  /** A message whose event is past waiting is left alone unless it is being retried. */
  predicate Done(t: Tables, ref: string) {
    ref in t.events && !t.events[ref].state.Waiting?
  }

  function HandleContent(env: Env, t: Tables, m: Incoming, mapping: Mapping, content: Ssb, now: int): Handled {
    match Build(env.lookups, t.events, t.rows, m, mapping, content, DidLookupOf(t.mappings, t.accounts))
    case AsksNothing => Handled(t, Some(NotTranslated))
    case Asks(e, record, deleteUri) =>
      if e.state.Deferred? || e.state.Skipped? then Persist(t, e)
      else CarryOut(env, t, m.seqNo, content, e, record, deleteUri, now)
  }

  function Handle(env: Env, t: Tables, raw: Incoming, force: bool, now: int): Handled {
    var m := Trimmed(raw);
    if m.ref == "" || m.author == "" then Handled(t, Some(Malformed))
    else if !force && Done(t, m.ref) then Handled(t, Some(AlreadyHandled))
    else if !Mapped(t, m.author) then Handled(t, Some(NotMapped))
    else
      var mapping := t.mappings[m.author];
      match env.decode(m.raw)
      case None => Persist(t, Failing(BaseEvent(m, mapping.did, NoAction), "decode_ssb_json"))
      case Some(content) => HandleContent(env, t, m, mapping, content, now)
  }

  // ---------------------------------------------------------------- batches and retries

  /** An entry of the receive log. */
  datatype Entry = Unreadable | NoMetadata | Entry(hash: string, key: string, author: string, sequence: int, raw: string)

  function IncomingOf(seqNo: int, entry: Entry): Incoming
    requires entry.Entry?
  {
    Incoming(seqNo, FirstNonBlank(entry.hash, entry.key), Trim(entry.author), if entry.sequence <= 0 then None else Some(entry.sequence), entry.raw)
  }

  function HandleEntry(env: Env, t: Tables, seqNo: int, entry: Entry, now: int): Handled {
    match entry
    case Unreadable => Handled(t, None)
    case NoMetadata => Handled(t, Some(Malformed))
    case _ => Handle(env, t, IncomingOf(seqNo, entry), false, now)
  }

  function Advance(t: Tables, disposition: Disposition): Tables {
    t.(cursor := t.cursor + 1, passed := t.passed + [disposition])
  }

  datatype BatchResult = BatchResult(t: Tables, processed: nat, ok: bool)

  /** Repeats a step up to `limit` times while the cursor is below `size`, and stops at the first that does not finish. */
  function Repeat(step: Tables -> Handled, size: nat, t: Tables, limit: nat): BatchResult
    decreases limit
  {
    if limit == 0 || t.cursor >= size then BatchResult(t, 0, true)
    else
      var h := step(t);
      match h.disposition
      case None => BatchResult(h.t, 0, false)
      case Some(disposition) =>
        var rest := Repeat(step, size, Advance(h.t, disposition), limit - 1);
        rest.(processed := rest.processed + 1)
  }

  /** Handling the entry after the cursor. */
  function EntryStep(env: Env, log: seq<Entry>, now: int): Tables -> Handled {
    (t: Tables) => if t.cursor < |log| then HandleEntry(env, t, t.cursor + 1, log[t.cursor], now) else Handled(t, None)
  }

  /** Handles up to `limit` entries after the cursor. */
  function Batch(env: Env, t: Tables, log: seq<Entry>, limit: nat, now: int): BatchResult {
    Repeat(EntryStep(env, log, now), |log|, t, limit)
  }

  function LimitOf(limit: int): nat {
    if limit <= 0 then DEFAULT_LIMIT else limit
  }

  function ResetForRetry(t: Tables, ref: string): Tables
    requires ref in t.events
  {
    t.(events := t.events[ref := t.events[ref].(state := Waiting, error := "", reason := "")])
  }

  predicate Final(e: Event) {
    e.state.Published? || e.state.Skipped?
  }

  /** Retries the event of a message, unless it is published or skipped. */
  function Retry(env: Env, t: Tables, name: string, now: int): Handled {
    var ref := Trim(name);
    if ref == "" || ref !in t.events || Final(t.events[ref]) then Handled(t, None)
    else
      var e := t.events[ref];
      Handle(env, ResetForRetry(t, ref), Incoming(e.seqNo, e.ref, e.author, e.sequence, e.rawSsb), true, now)
  }

  /** A mapping needs a feed and an account. */
  function Map(t: Tables, feed: string, mapping: Mapping): Tables {
    if Blank(feed) || Blank(mapping.did) then t
    else t.(mappings := t.mappings[Trim(feed) := mapping.(did := Trim(mapping.did))])
  }

  function Unmap(t: Tables, name: string): Tables {
    var feed := Trim(name);
    if feed in t.mappings then t.(mappings := t.mappings[feed := t.mappings[feed].(active := false)]) else t
  }

  // ---------------------------------------------------------------- at most one remote write

  function Successes(remote: seq<RemoteOp>, ref: string): nat {
    if remote == [] then 0
    else
      var n := |remote| - 1;
      Successes(remote[..n], ref) + if remote[n].ref == ref then 1 else 0
  }

  predicate IsPublished(events: Events, ref: string) {
    ref in events && events[ref].state.Published?
  }

  predicate CountOk(t: Tables, ref: string) {
    Successes(t.remote, ref) == if IsPublished(t.events, ref) then 1 else 0
  }

  ghost predicate Inv(t: Tables) {
    && (forall ref :: CountOk(t, ref))
    && (forall ref <- t.events :: t.events[ref].ref == ref && Trim(ref) == ref && ref != "")
    && (forall feed <- t.mappings :: !Blank(t.mappings[feed].did))
    && RowsOk(t.rows)
    && |t.passed| == t.cursor
  }

  /** Only the event of one message changed, and neither cursor nor mappings. */
  ghost predicate OnlyRef(a: Tables, b: Tables, ref: string) {
    && a.mappings == b.mappings && a.accounts == b.accounts && a.cursor == b.cursor && a.passed == b.passed
    && (forall other :: other != ref ==>
          (other in a.events <==> other in b.events) && (other in a.events ==> a.events[other] == b.events[other]))
    && (ref in a.events ==> ref in b.events)
  }

  lemma SuccessesGrow(remote: seq<RemoteOp>, op: RemoteOp, ref: string)
    ensures Successes(remote + [op], ref) == Successes(remote, ref) + if op.ref == ref then 1 else 0
  {
    assert (remote + [op])[..|remote + [op]| - 1] == remote;
  }

  /** The tables are in order but for the event of one message, whose remote writes are already noted. */
  ghost predicate Balanced(t: Tables, e: Event) {
    && (forall ref :: ref != e.ref ==> CountOk(t, ref))
    && Successes(t.remote, e.ref) == (if e.state.Published? then 1 else 0)
    && (forall ref <- t.events :: t.events[ref].ref == ref && Trim(ref) == ref && ref != "")
    && (forall feed <- t.mappings :: !Blank(t.mappings[feed].did))
    && RowsOk(t.rows)
    && |t.passed| == t.cursor
  }

  /** The outcome of dealing with a message by writing its event. */
  ghost predicate Written1(t: Tables, h: Handled, ref: string) {
    h.disposition == Some(Recorded) && Inv(h.t) && OnlyRef(t, h.t, ref) && ref in h.t.events
  }

  lemma PersistKeepsInv(t: Tables, e: Event)
    requires Acceptable(e) && Trim(e.ref) == e.ref && Balanced(t, e)
    ensures Written1(t, Persist(t, e), e.ref)
  {
    var t' := Persist(t, e).t;
    forall ref ensures CountOk(t', ref) {
      if ref != e.ref {
        assert CountOk(t, ref);
      }
    }
  }

  /** An event that publishes nothing fits the tables as they are. */
  lemma UnpublishedIsBalanced(t: Tables, e: Event)
    requires Inv(t) && !IsPublished(t.events, e.ref) && !e.state.Published?
    ensures Balanced(t, e)
  {
    assert CountOk(t, e.ref);
  }

  lemma NotedIsBalanced(t: Tables, e: Event, uri: string, deleted: bool)
    requires Inv(t) && !IsPublished(t.events, e.ref) && e.state.Published?
    ensures Balanced(Noted(t, e.ref, uri, deleted), e)
  {
    var op := RemoteOp(e.ref, uri, deleted);
    forall other ensures other != e.ref ==> CountOk(Noted(t, e.ref, uri, deleted), other) {
      SuccessesGrow(t.remote, op, other);
      assert CountOk(t, other);
    }
    SuccessesGrow(t.remote, op, e.ref);
    assert CountOk(t, e.ref);
  }

  lemma CorrelatedIsBalanced(env: Env, t: Tables, e: Event, record: Record, now: int)
    requires Balanced(t, e) && !Blank(e.ref)
    ensures Balanced(Correlated(env, t, e, record, now), e)
    ensures OnlyRef(t, Correlated(env, t, e, record, now), e.ref)
  {
    var t' := Correlated(env, t, e, record, now);
    if !Blank(e.resultUri) {
      UpsertKeepsRowsOk(t.rows, CorrelationRow(env, e, record), now);
    }
    forall ref ensures ref != e.ref ==> CountOk(t', ref) {
      assert ref != e.ref ==> CountOk(t, ref);
    }
  }

  lemma WrittenFrom(a: Tables, b: Tables, h: Handled, ref: string)
    requires OnlyRef(a, b, ref) && Written1(b, h, ref)
    ensures Written1(a, h, ref)
  {
  }

  /** An event ready to be carried out: acceptable, under its own reference, and not carried out before. */
  ghost predicate Fresh(t: Tables, e: Event) {
    Inv(t) && Acceptable(e) && Trim(e.ref) == e.ref && !IsPublished(t.events, e.ref) && !e.state.Published?
  }

  lemma GivingUpKeepsInv(t: Tables, e: Event, text: string)
    requires Fresh(t, e)
    ensures Written1(t, Persist(t, Failing(e, text)), e.ref)
    ensures Written1(t, Persist(t, Deferring(e, text)), e.ref)
  {
    UnpublishedIsBalanced(t, Failing(e, text));
    PersistKeepsInv(t, Failing(e, text));
    UnpublishedIsBalanced(t, Deferring(e, text));
    PersistKeepsInv(t, Deferring(e, text));
  }

  lemma DeletionKeepsInv(env: Env, t: Tables, seqNo: int, e: Event, deleteUri: string, now: int)
    requires Fresh(t, e)
    ensures Written1(t, WriteDeletion(env, t, seqNo, e, deleteUri, now), e.ref)
  {
    match env.remove(now, seqNo, deleteUri)
    case Some(error) => GivingUpKeepsInv(t, e, error);
    case None =>
      NotedIsBalanced(t, Deleted(e, deleteUri, now), deleteUri, true);
      PersistKeepsInv(Noted(t, e.ref, deleteUri, true), Deleted(e, deleteUri, now));
  }

  lemma RecordKeepsInv(env: Env, t: Tables, seqNo: int, e: Event, record: Record, now: int)
    requires Fresh(t, e)
    ensures Written1(t, WriteRecord(env, t, seqNo, e, record, now), e.ref)
  {
    match env.create(now, seqNo, record)
    case Err(error) => GivingUpKeepsInv(t, e, error);
    case Ok(created) =>
      var published := Succeeded(e, created, now);
      var noted := Noted(t, e.ref, created.uri, false);
      NotedIsBalanced(t, published, created.uri, false);
      CorrelatedIsBalanced(env, noted, published, record, now);
      PersistKeepsInv(Correlated(env, noted, published, record, now), published);
      WrittenFrom(noted, Correlated(env, noted, published, record, now), WriteRecord(env, t, seqNo, e, record, now), e.ref);
  }

  lemma EnrichedKeepsInv(env: Env, t: Tables, seqNo: int, e: Event, enriched: Enriched, now: int)
    requires Fresh(t, e)
    ensures Written1(t, WriteEnriched(env, t, seqNo, e, enriched, now), e.ref)
  {
    match enriched
    case EnrichFailed(error) => GivingUpKeepsInv(t, e, error);
    case EnrichDeferred(reason) => GivingUpKeepsInv(t, e, reason);
    case EnrichReady(ready) => RecordKeepsInv(env, t, seqNo, e, ready, now);
  }

  lemma WriteKeepsInv(env: Env, t: Tables, seqNo: int, content: Ssb, e: Event, record: Record, deleteUri: string, now: int)
    requires Fresh(t, e)
    ensures Written1(t, Write(env, t, seqNo, content, e, record, deleteUri, now), e.ref)
  {
    if e.action.UnfollowAction? {
      DeletionKeepsInv(env, t, seqNo, e, deleteUri, now);
    } else {
      EnrichedKeepsInv(env, t, seqNo, e, Enrich(env, t, seqNo, content, record, now), now);
    }
  }

  lemma CarryOutKeepsInv(env: Env, t: Tables, seqNo: int, content: Ssb, e: Event, record: Record, deleteUri: string, now: int)
    requires Fresh(t, e)
    ensures Written1(t, CarryOut(env, t, seqNo, content, e, record, deleteUri, now), e.ref)
  {
    match env.credential(now, e.did)
    case Some(reason) => GivingUpKeepsInv(t, e, "credentials_" + reason);
    case None =>
      var attempted := e.(attempts := 1, lastAttempt := Some(now));
      match env.session(now, seqNo) {
        case Some(error) => GivingUpKeepsInv(t, attempted, error);
        case None => WriteKeepsInv(env, t, seqNo, content, attempted, record, deleteUri, now);
      }
  }

  lemma ContentKeepsInv(env: Env, t: Tables, m: Incoming, mapping: Mapping, content: Ssb, now: int)
    requires Inv(t) && m.ref != "" && !Blank(m.ref) && Trim(m.ref) == m.ref && !Blank(m.author) && !Blank(mapping.did)
    requires !IsPublished(t.events, m.ref)
    ensures var h := HandleContent(env, t, m, mapping, content, now);
      h == Handled(t, Some(NotTranslated)) || Written1(t, h, m.ref)
  {
    BuildIsWell(env.lookups, t.events, t.rows, m, mapping, content, DidLookupOf(t.mappings, t.accounts));
    match Build(env.lookups, t.events, t.rows, m, mapping, content, DidLookupOf(t.mappings, t.accounts))
    case AsksNothing =>
    case Asks(e, record, deleteUri) =>
      if e.state.Deferred? || e.state.Skipped? {
        UnpublishedIsBalanced(t, e);
        PersistKeepsInv(t, e);
      } else {
        CarryOutKeepsInv(env, t, m.seqNo, content, e, record, deleteUri, now);
      }
  }

  /** Exactly these messages cannot be dealt with: mapped, not dealt with before, and not decodable. */
  predicate Stuck(env: Env, t: Tables, raw: Incoming, force: bool) {
    var m := Trimmed(raw);
    m.ref != "" && m.author != "" && (force || !Done(t, m.ref)) && Mapped(t, m.author) && env.decode(m.raw).None?
  }

  /** What the outcome of dealing with a message says about it. */
  predicate Explained(env: Env, t: Tables, raw: Incoming, disposition: Disposition) {
    match disposition
    case Malformed => Trim(raw.ref) == "" || Trim(raw.author) == ""
    case NotMapped => Trim(raw.ref) != "" && Trim(raw.author) != ""
    case NotTranslated => Trim(raw.ref) != "" && Trim(raw.author) != "" && env.decode(raw.raw).Some?
    case _ => Trim(raw.ref) != "" && Trim(raw.author) != "" && Trim(raw.ref) in t.events
  }

  /** Handling a message keeps the invariant, touches no other event, and finishes unless the message is stuck. */
  lemma HandleKeepsInv(env: Env, t: Tables, raw: Incoming, force: bool, now: int)
    requires Inv(t) && (force ==> !IsPublished(t.events, Trim(raw.ref)))
    ensures var h := Handle(env, t, raw, force, now);
      && Inv(h.t) && OnlyRef(t, h.t, Trim(raw.ref))
      && (h.disposition.None? <==> Stuck(env, t, raw, force))
      && (h.disposition.None? ==> h.t == t)
      && (h.disposition.Some? ==> Explained(env, h.t, raw, h.disposition.value))
      && (!force && Done(t, Trim(raw.ref)) ==> h.t == t)
  {
    var m := Trimmed(raw);
    TrimTwice(raw.ref);
    TrimTwice(raw.author);
    if m.ref != "" && m.author != "" && (force || !Done(t, m.ref)) && Mapped(t, m.author) && env.decode(m.raw).Some? {
      ContentKeepsInv(env, t, m, t.mappings[m.author], env.decode(m.raw).value, now);
    }
  }

  lemma AdvanceKeepsInv(t: Tables, disposition: Disposition)
    requires Inv(t)
    ensures Inv(Advance(t, disposition))
  {
    forall ref ensures CountOk(Advance(t, disposition), ref) {
      assert CountOk(t, ref);
    }
  }

  // ---------------------------------------------------------------- batches

  predicate Blocked(env: Env, t: Tables, log: seq<Entry>)
    requires t.cursor < |log|
  {
    match log[t.cursor]
    case Unreadable => true
    case NoMetadata => false
    case _ => Stuck(env, t, IncomingOf(t.cursor + 1, log[t.cursor]), false)
  }

  /** Published and skipped events are as they were, and no event disappeared. */
  ghost predicate Kept(a: Tables, b: Tables) {
    && (forall ref <- a.events :: ref in b.events)
    && (forall ref <- a.events :: Final(a.events[ref]) ==> b.events[ref] == a.events[ref])
  }

  predicate NamesBoth(entry: Entry) {
    entry.Entry? && Trimmed(IncomingOf(0, entry)).ref != "" && Trimmed(IncomingOf(0, entry)).author != ""
  }

  /** Why the cursor could pass an entry: it names no message or author, its message has an event, or needs none. */
  predicate Accounted(env: Env, t: Tables, log: seq<Entry>, k: nat) {
    k < |t.passed| ==>
      && k < |log|
      && match t.passed[k] {
           case Malformed => log[k].NoMetadata? || (log[k].Entry? && !NamesBoth(log[k]))
           case NotMapped => NamesBoth(log[k])
           case NotTranslated => NamesBoth(log[k]) && env.decode(log[k].raw).Some?
           case _ => NamesBoth(log[k]) && Trim(IncomingOf(k + 1, log[k]).ref) in t.events
         }
  }

  lemma OnlyRefKeeps(a: Tables, b: Tables, ref: string)
    requires OnlyRef(a, b, ref) && (ref in a.events && Final(a.events[ref]) ==> b.events == a.events)
    ensures Kept(a, b)
  {
    forall other <- a.events ensures other in b.events && (Final(a.events[other]) ==> b.events[other] == a.events[other]) {
      assert other != ref ==> other in b.events && b.events[other] == a.events[other];
    }
  }

  /** One entry dealt with. */
  ghost predicate Passes(env: Env, t: Tables, h: Handled, log: seq<Entry>) {
    && Inv(h.t) && Kept(t, h.t) && h.t.cursor == t.cursor && h.t.passed == t.passed
    && (h.disposition.None? ==> h.t == t)
    && (h.disposition.Some? ==> Accounted(env, Advance(h.t, h.disposition.value), log, t.cursor))
  }

  /** What handling a message guarantees, seen from its entry in the log. */
  lemma EntryFromMessage(env: Env, t: Tables, h: Handled, log: seq<Entry>, raw: Incoming)
    requires Inv(t) && t.cursor < |log| && log[t.cursor].Entry? && raw == IncomingOf(t.cursor + 1, log[t.cursor])
    requires Inv(h.t) && OnlyRef(t, h.t, Trim(raw.ref)) && (h.disposition.None? ==> h.t == t)
    requires Done(t, Trim(raw.ref)) ==> h.t == t
    requires h.disposition.Some? ==> Explained(env, h.t, raw, h.disposition.value)
    ensures Passes(env, t, h, log)
  {
    OnlyRefKeeps(t, h.t, Trim(raw.ref));
    assert Trimmed(IncomingOf(0, log[t.cursor])).ref == Trim(raw.ref) && Trimmed(IncomingOf(0, log[t.cursor])).author == Trim(raw.author);
  }

  lemma MessageKeepsInv(env: Env, t: Tables, log: seq<Entry>, now: int, raw: Incoming)
    requires Inv(t) && t.cursor < |log| && log[t.cursor].Entry? && raw == IncomingOf(t.cursor + 1, log[t.cursor])
    ensures var h := Handle(env, t, raw, false, now); Passes(env, t, h, log) && (h.disposition.None? <==> Stuck(env, t, raw, false))
  {
    HandleKeepsInv(env, t, raw, false, now);
    EntryFromMessage(env, t, Handle(env, t, raw, false, now), log, raw);
  }

  lemma EntryStepIs(env: Env, log: seq<Entry>, now: int, t: Tables)
    requires t.cursor < |log|
    ensures EntryStep(env, log, now)(t) == HandleEntry(env, t, t.cursor + 1, log[t.cursor], now)
  {
  }

  lemma EntryKeepsInv(env: Env, t: Tables, log: seq<Entry>, now: int)
    requires Inv(t) && t.cursor < |log|
    ensures var h := EntryStep(env, log, now)(t); Passes(env, t, h, log) && (h.disposition.None? <==> Blocked(env, t, log))
  {
    EntryStepIs(env, log, now, t);
    if log[t.cursor].Entry? {
      MessageKeepsInv(env, t, log, now, IncomingOf(t.cursor + 1, log[t.cursor]));
    }
  }

  ghost predicate GoodStep(env: Env, step: Tables -> Handled, log: seq<Entry>) {
    forall t: Tables {:trigger Passes(env, t, step(t), log)} :: Inv(t) && t.cursor < |log| ==> Passes(env, t, step(t), log)
  }

  lemma NextKeepsInv(env: Env, t: Tables, h: Handled, log: seq<Entry>)
    requires Passes(env, t, h, log) && h.disposition.Some?
    ensures Inv(Advance(h.t, h.disposition.value)) && Kept(t, Advance(h.t, h.disposition.value))
  {
    AdvanceKeepsInv(h.t, h.disposition.value);
  }

  /** A good step that finishes, and the cursor's move past its entry. */
  lemma GoodStepMoves(env: Env, step: Tables -> Handled, log: seq<Entry>, t: Tables, h: Handled)
    requires GoodStep(env, step, log) && Inv(t) && t.cursor < |log| && h == step(t)
    ensures Passes(env, t, h, log)
    ensures h.disposition.Some? ==>
      var next := Advance(h.t, h.disposition.value);
      Inv(next) && Kept(t, next) && t.passed <= next.passed && next.cursor == t.cursor + 1
  {
    assert Passes(env, t, step(t), log);
    if h.disposition.Some? {
      NextKeepsInv(env, t, h, log);
    }
  }

  /** What repeating a step comes to when its first repetition finishes. */
  lemma RepeatUnfolds(step: Tables -> Handled, size: nat, t: Tables, limit: nat, h: Handled)
    requires h == step(t)
    ensures limit == 0 || t.cursor >= size ==> Repeat(step, size, t, limit) == BatchResult(t, 0, true)
    ensures limit > 0 && t.cursor < size && h.disposition.None? ==> Repeat(step, size, t, limit) == BatchResult(h.t, 0, false)
    ensures limit > 0 && t.cursor < size && h.disposition.Some? ==>
      var rest := Repeat(step, size, Advance(h.t, h.disposition.value), limit - 1);
      Repeat(step, size, t, limit) == rest.(processed := rest.processed + 1)
  {
  }

  lemma {:induction false} RepeatKeepsInv(env: Env, step: Tables -> Handled, log: seq<Entry>, t: Tables, limit: nat)
    requires GoodStep(env, step, log) && Inv(t)
    ensures Inv(Repeat(step, |log|, t, limit).t) && Kept(t, Repeat(step, |log|, t, limit).t)
    decreases limit
  {
    var h := step(t);
    RepeatUnfolds(step, |log|, t, limit, h);
    if limit > 0 && t.cursor < |log| {
      GoodStepMoves(env, step, log, t, h);
      if h.disposition.Some? {
        var next := Advance(h.t, h.disposition.value);
        RepeatKeepsInv(env, step, log, next, limit - 1);
        KeptTransitive(t, next, Repeat(step, |log|, next, limit - 1).t);
      }
    }
  }

  /** How far a batch got, and why it stopped. */
  ghost predicate Counted(step: Tables -> Handled, size: nat, t: Tables, limit: nat, r: BatchResult) {
    && t.passed <= r.t.passed && r.t.cursor == t.cursor + r.processed && r.processed <= limit
    && (if r.ok then r.processed == limit || r.t.cursor >= size else r.t.cursor < size && step(r.t).disposition.None?)
  }

  lemma {:induction false} RepeatCounts(env: Env, step: Tables -> Handled, log: seq<Entry>, t: Tables, limit: nat)
    requires GoodStep(env, step, log) && Inv(t)
    ensures Counted(step, |log|, t, limit, Repeat(step, |log|, t, limit))
    decreases limit
  {
    var h := step(t);
    RepeatUnfolds(step, |log|, t, limit, h);
    if limit > 0 && t.cursor < |log| {
      GoodStepMoves(env, step, log, t, h);
      if h.disposition.Some? {
        RepeatCounts(env, step, log, Advance(h.t, h.disposition.value), limit - 1);
      }
    }
  }

  lemma EntryStepIsGood(env: Env, log: seq<Entry>, now: int)
    ensures GoodStep(env, EntryStep(env, log, now), log)
  {
    forall t: Tables | Inv(t) && t.cursor < |log| ensures Passes(env, t, EntryStep(env, log, now)(t), log) {
      EntryKeepsInv(env, t, log, now);
    }
  }

  /**
   A batch moves the cursor over exactly the entries it dealt with: as many as it may, or up to the end of
   the log, or up to an entry that blocks it.
   */
  lemma BatchKeepsInv(env: Env, t: Tables, log: seq<Entry>, limit: nat, now: int)
    requires Inv(t)
    ensures var r := Batch(env, t, log, limit, now);
      && Inv(r.t) && Kept(t, r.t) && t.passed <= r.t.passed
      && r.t.cursor == t.cursor + r.processed && r.processed <= limit
      && (if r.ok then r.processed == limit || r.t.cursor >= |log| else r.t.cursor < |log| && Blocked(env, r.t, log))
  {
    EntryStepIsGood(env, log, now);
    RepeatKeepsInv(env, EntryStep(env, log, now), log, t, limit);
    RepeatCounts(env, EntryStep(env, log, now), log, t, limit);
    var r := Batch(env, t, log, limit, now);
    if !r.ok {
      EntryKeepsInv(env, r.t, log, now);
    }
  }

  lemma KeptTransitive(a: Tables, b: Tables, c: Tables)
    requires Kept(a, b) && Kept(b, c)
    ensures Kept(a, c)
  {
  }

  lemma AccountedStays(env: Env, t: Tables, h: Handled, log: seq<Entry>, k: nat)
    requires Inv(t) && Passes(env, t, h, log) && h.disposition.Some? && (k < t.cursor ==> Accounted(env, t, log, k))
    ensures k <= t.cursor ==> Accounted(env, Advance(h.t, h.disposition.value), log, k)
  {
  }

  lemma {:induction false} RepeatAccounts(env: Env, step: Tables -> Handled, log: seq<Entry>, t: Tables, limit: nat, k: nat)
    requires GoodStep(env, step, log) && Inv(t) && (k < t.cursor ==> Accounted(env, t, log, k))
    ensures var r := Repeat(step, |log|, t, limit); k < r.t.cursor ==> Accounted(env, r.t, log, k)
    decreases limit
  {
    if limit > 0 && t.cursor < |log| {
      var h := step(t);
      assert Passes(env, t, step(t), log);
      if h.disposition.Some? {
        AccountedStays(env, t, h, log, k);
        AdvanceKeepsInv(h.t, h.disposition.value);
        RepeatAccounts(env, step, log, Advance(h.t, h.disposition.value), limit - 1, k);
      }
    }
  }

  /** Everything the cursor passed stays accounted for: its message has an event, or was one that asks for none. */
  lemma BatchAccounts(env: Env, t: Tables, log: seq<Entry>, limit: nat, now: int, k: nat)
    requires Inv(t) && (k < t.cursor ==> Accounted(env, t, log, k))
    ensures var r := Batch(env, t, log, limit, now); k < r.t.cursor ==> Accounted(env, r.t, log, k)
  {
    EntryStepIsGood(env, log, now);
    RepeatAccounts(env, EntryStep(env, log, now), log, t, limit, k);
  }

  /**
   A batch makes no progress exactly when the entry after the cursor cannot be read, or holds a message
   of a mapped author that does not decode; the tables then stay as they are, so neither does the next.
   */
  lemma NoProgressIffBlocked(env: Env, t: Tables, log: seq<Entry>, limit: nat, now: int)
    requires Inv(t) && t.cursor < |log| && limit > 0
    ensures Batch(env, t, log, limit, now).processed == 0 <==> Blocked(env, t, log)
    ensures Blocked(env, t, log) ==> !Batch(env, t, log, limit, now).ok && Batch(env, t, log, limit, now).t == t
  {
    EntryKeepsInv(env, t, log, now);
  }

  // ---------------------------------------------------------------- retries and runs

  lemma ResetKeepsInv(t: Tables, ref: string)
    requires Inv(t) && ref in t.events && !t.events[ref].state.Published?
    ensures Inv(ResetForRetry(t, ref)) && OnlyRef(t, ResetForRetry(t, ref), ref)
    ensures !IsPublished(ResetForRetry(t, ref).events, ref)
  {
    var t' := ResetForRetry(t, ref);
    forall other ensures CountOk(t', other) {
      assert CountOk(t, other);
    }
  }

  lemma OnlyRefTransitive(a: Tables, b: Tables, c: Tables, ref: string)
    requires OnlyRef(a, b, ref) && OnlyRef(b, c, ref)
    ensures OnlyRef(a, c, ref)
  {
    forall other ensures other != ref ==>
      (other in a.events <==> other in c.events) && (other in a.events ==> a.events[other] == c.events[other])
    {
      assert other != ref ==> (other in a.events <==> other in b.events) && (other in b.events <==> other in c.events);
    }
  }

  /** A retry keeps the invariant and touches no event but its own, which was neither published nor skipped. */
  lemma RetryKeepsInv(env: Env, t: Tables, name: string, now: int)
    requires Inv(t)
    ensures var h := Retry(env, t, name, now); Inv(h.t) && Kept(t, h.t) && h.t.cursor == t.cursor && h.t.passed == t.passed
  {
    var ref := Trim(name);
    if ref != "" && ref in t.events && !Final(t.events[ref]) {
      var e := t.events[ref];
      var reset := ResetForRetry(t, ref);
      var raw := Incoming(e.seqNo, e.ref, e.author, e.sequence, e.rawSsb);
      ResetKeepsInv(t, ref);
      HandleKeepsInv(env, reset, raw, true, now);
      OnlyRefTransitive(t, reset, Handle(env, reset, raw, true, now).t, ref);
      OnlyRefKeeps(t, Handle(env, reset, raw, true, now).t, ref);
    }
  }

  datatype Call =
    | CallBatch(log: seq<Entry>, limit: int, now: int)
    | CallRetry(name: string, now: int)
    | CallMap(feed: string, mapping: Mapping)
    | CallUnmap(feed: string)

  function Step(env: Env, t: Tables, call: Call): Tables {
    match call
    case CallBatch(log, limit, now) => Batch(env, t, log, LimitOf(limit), now).t
    case CallRetry(name, now) => Retry(env, t, name, now).t
    case CallMap(feed, mapping) => Map(t, feed, mapping)
    case CallUnmap(feed) => Unmap(t, feed)
  }

  function Run(env: Env, t: Tables, calls: seq<Call>): Tables {
    if calls == [] then t else Step(env, Run(env, t, calls[..|calls| - 1]), calls[|calls| - 1])
  }

  lemma MappingKeepsInv(t: Tables, t': Tables)
    requires Inv(t) && t' == t.(mappings := t'.mappings) && forall feed <- t'.mappings :: !Blank(t'.mappings[feed].did)
    ensures Inv(t') && Kept(t, t')
  {
    forall ref ensures CountOk(t', ref) {
      assert CountOk(t, ref);
    }
  }

  lemma StepKeepsInv(env: Env, t: Tables, call: Call)
    requires Inv(t)
    ensures Inv(Step(env, t, call)) && Kept(t, Step(env, t, call)) && t.cursor <= Step(env, t, call).cursor
  {
    match call
    case CallBatch(log, limit, now) => BatchKeepsInv(env, t, log, LimitOf(limit), now);
    case CallRetry(name, now) => RetryKeepsInv(env, t, name, now);
    case CallMap(feed, mapping) =>
      TrimTwice(mapping.did);
      MappingKeepsInv(t, Map(t, feed, mapping));
    case CallUnmap(feed) => MappingKeepsInv(t, Unmap(t, feed));
  }

  lemma {:induction false} RunKeepsInv(env: Env, t: Tables, calls: seq<Call>)
    requires Inv(t)
    ensures Inv(Run(env, t, calls)) && Kept(t, Run(env, t, calls)) && t.cursor <= Run(env, t, calls).cursor
    decreases |calls|
  {
    if calls != [] {
      var n := |calls| - 1;
      RunKeepsInv(env, t, calls[..n]);
      StepKeepsInv(env, Run(env, t, calls[..n]), calls[n]);
      KeptTransitive(t, Run(env, t, calls[..n]), Run(env, t, calls));
    }
  }

  function Init(accounts: map<string, string>): Tables {
    Tables(map[], map[], map[], accounts, 0, [], [])
  }

  lemma InitIsInOrder(accounts: map<string, string>)
    ensures Inv(Init(accounts))
  {
  }

  /** Over any run, a message has at most one successful remote write, and has one exactly when its event is published. */
  lemma AtMostOneWrite(env: Env, accounts: map<string, string>, calls: seq<Call>, ref: string)
    ensures var t := Run(env, Init(accounts), calls);
      && Successes(t.remote, ref) <= 1
      && (Successes(t.remote, ref) == 1 <==> IsPublished(t.events, ref))
  {
    InitIsInOrder(accounts);
    RunKeepsInv(env, Init(accounts), calls);
    assert CountOk(Run(env, Init(accounts), calls), ref);
  }

  /** Once published or skipped, an event is the same after any further run. */
  lemma FinalStaysFinal(env: Env, t: Tables, calls: seq<Call>, ref: string)
    requires Inv(t) && ref in t.events && Final(t.events[ref])
    ensures ref in Run(env, t, calls).events && Run(env, t, calls).events[ref] == t.events[ref]
  {
    RunKeepsInv(env, t, calls);
  }

  // ---------------------------------------------------------------- what the cursor passed, over a run

  /** Every batch of a run saw a part of the log, which only grew. */
  predicate Appending(calls: seq<Call>, log: seq<Entry>) {
    forall call <- calls :: call.CallBatch? ==> call.log <= log
  }

  ghost predicate AllAccounted(env: Env, t: Tables, log: seq<Entry>) {
    forall k: nat :: k < t.cursor ==> Accounted(env, t, log, k)
  }

  /** Events never disappear, so what is accounted for stays so, also in a longer log. */
  lemma AccountedLater(env: Env, a: Tables, b: Tables, part: seq<Entry>, log: seq<Entry>, k: nat)
    requires Accounted(env, a, part, k) && Kept(a, b) && k < |a.passed| && k < |b.passed| && a.passed[k] == b.passed[k] && part <= log
    ensures Accounted(env, b, log, k)
  {
    assert log[k] == part[k];
  }

  lemma BatchAccountsFor(env: Env, t: Tables, part: seq<Entry>, limit: int, now: int, log: seq<Entry>)
    requires Inv(t) && part <= log && AllAccounted(env, t, log)
    ensures AllAccounted(env, Batch(env, t, part, LimitOf(limit), now).t, log)
  {
    var r := Batch(env, t, part, LimitOf(limit), now);
    if t.cursor < |part| {
      BatchKeepsInv(env, t, part, LimitOf(limit), now);
      forall k: nat | k < r.t.cursor ensures Accounted(env, r.t, log, k) {
        assert k < t.cursor ==> Accounted(env, t, log, k) && part[k] == log[k];
        BatchAccounts(env, t, part, LimitOf(limit), now, k);
        AccountedLater(env, r.t, r.t, part, log, k);
      }
    }
  }

  lemma StepAccounts(env: Env, t: Tables, call: Call, log: seq<Entry>)
    requires Inv(t) && (call.CallBatch? ==> call.log <= log) && AllAccounted(env, t, log)
    ensures AllAccounted(env, Step(env, t, call), log)
  {
    match call
    case CallBatch(part, limit, now) => BatchAccountsFor(env, t, part, limit, now, log);
    case CallRetry(name, now) =>
      RetryKeepsInv(env, t, name, now);
      var h := Retry(env, t, name, now);
      forall k: nat | k < t.cursor ensures Accounted(env, h.t, log, k) {
        AccountedLater(env, t, h.t, log, log, k);
      }
    case CallMap(feed, mapping) =>
      forall k: nat | k < t.cursor ensures Accounted(env, Map(t, feed, mapping), log, k) {
        assert Accounted(env, t, log, k);
      }
    case CallUnmap(feed) =>
      forall k: nat | k < t.cursor ensures Accounted(env, Unmap(t, feed), log, k) {
        assert Accounted(env, t, log, k);
      }
  }

  /**
   Over any run on a log that only grows, the cursor stays within it and everything it passed is accounted
   for: the message has an event, or needed none, or the entry names no message.
   */
  lemma {:induction false} RunAccounts(env: Env, accounts: map<string, string>, calls: seq<Call>, log: seq<Entry>)
    requires Appending(calls, log)
    ensures var t := Run(env, Init(accounts), calls); t.cursor <= |log| && |t.passed| == t.cursor && AllAccounted(env, t, log)
    decreases |calls|
  {
    InitIsInOrder(accounts);
    RunKeepsInv(env, Init(accounts), calls);
    if calls != [] {
      var n := |calls| - 1;
      var before := Run(env, Init(accounts), calls[..n]);
      RunAccounts(env, accounts, calls[..n], log);
      assert Inv(before) by { RunKeepsInv(env, Init(accounts), calls[..n]); }
      assert calls[n] in calls;
      StepAccounts(env, before, calls[n], log);
      var t := Run(env, Init(accounts), calls);
      assert t.cursor > 0 ==> Accounted(env, t, log, t.cursor - 1);
    }
  }

  // ---------------------------------------------------------------- a message that stops the cursor

  /** A blocked entry stops every later batch, however much the log grows. */
  lemma {:induction false} BlockedForGood(env: Env, t: Tables, log: seq<Entry>, calls: seq<Call>)
    requires Inv(t) && t.cursor < |log| && Blocked(env, t, log)
    requires forall call <- calls :: call.CallBatch? && log <= call.log
    ensures Run(env, t, calls) == t
    decreases |calls|
  {
    if calls != [] {
      var call := calls[|calls| - 1];
      BlockedForGood(env, t, log, calls[..|calls| - 1]);
      assert call in calls && call.log[t.cursor] == log[t.cursor];
      NoProgressIffBlocked(env, t, call.log, LimitOf(call.limit), call.now);
    }
  }

  /**
   It does happen: a message that does not decode, from the first author to be mapped, blocks the cursor at
   the start of the log; no batch ever gets past it, and it is never stored as a failed event.
   */
  lemma UndecodableStopsTheCursor(env: Env, accounts: map<string, string>, feed: string, mapping: Mapping, raw: string, calls: seq<Call>)
    requires env.decode(raw).None? && feed != "" && Trim(feed) == feed && !Blank(mapping.did) && mapping.active
    requires forall call <- calls :: call.CallBatch? && [Entry.Entry("%m", "", feed, 1, raw)] <= call.log
    ensures var t := Run(env, Run(env, Init(accounts), [CallMap(feed, mapping)]), calls);
      t.cursor == 0 && t.events == map[] && Blocked(env, t, [Entry.Entry("%m", "", feed, 1, raw)])
  {
    var log := [Entry.Entry("%m", "", feed, 1, raw)];
    assert [CallMap(feed, mapping)][..0] == [];
    var t := Run(env, Init(accounts), [CallMap(feed, mapping)]);
    assert Run(env, Init(accounts), []) == Init(accounts);
    assert t == Map(Init(accounts), feed, mapping);
    InitIsInOrder(accounts);
    RunKeepsInv(env, Init(accounts), [CallMap(feed, mapping)]);
    assert Trim("%m") == "%m" && !Blank("%m");
    assert Trimmed(IncomingOf(1, log[0])).ref == "%m";
    BlockedForGood(env, t, log, calls);
  }

  // ---------------------------------------------------------------- no echo

  /** A record created for a message is at once one the forward direction takes for a duplicate. */
  lemma CreatedIsRecognised(env: Env, t: Tables, seqNo: int, e: Event, record: Record, now: int)
    requires Acceptable(e) && env.create(now, seqNo, record).Ok?
    ensures var created := env.create(now, seqNo, record).value;
      !Blank(created.uri) && !Blank(created.cid) ==>
        && Processor.Duplicate(WriteRecord(env, t, seqNo, e, record, now).t.rows, created.uri, created.cid)
        && WriteRecord(env, t, seqNo, e, record, now).t.rows[created.uri].ref == e.ref
  {
    var created := env.create(now, seqNo, record).value;
    var published := Succeeded(e, created, now);
    var noted := Noted(t, e.ref, created.uri, false);
    if !Blank(created.uri) && !Blank(created.cid) {
      var row := CorrelationRow(env, published, record);
      assert Correlated(env, noted, published, record, now).rows == Upsert(t.rows, row, now);
      assert Persist(Correlated(env, noted, published, record, now), published).t.rows == Upsert(t.rows, row, now);
    }
  }

  /**
   A recognised record stays recognised, its row untouched, whatever the forward direction does, as long as no
   other version of it, deletion or retry is written.
   */
  lemma EchoStaysRecognised(before: Processor.World, after: Processor.World, uri: string, cid: string)
    requires Processor.Later(before, after) && Processor.Duplicate(before.rows, uri, cid) && before.rows[uri].uri == uri
    requires Processor.Untouched(before.rows[uri], after.handled[|before.handled|..])
    ensures Processor.Duplicate(after.rows, uri, cid) && after.rows[uri] == before.rows[uri]
  {
    assert Processor.Bridged(before.rows[uri]);
  }

  lemma CorrelatedIsOk(env: Env, t: Tables, seqNo: int, e: Event, record: Record, now: int)
    requires Acceptable(e) && env.create(now, seqNo, record).Ok? && RowsOk(t.rows)
    ensures RowsOk(WriteRecord(env, t, seqNo, e, record, now).t.rows)
  {
    var published := Succeeded(e, env.create(now, seqNo, record).value, now);
    UpsertKeepsRowsOk(t.rows, CorrelationRow(env, published, record), now);
  }

  /**
   A record written for a message is never bridged back. Let the forward direction start on the table as the
   write left it and handle any record events: whenever the record itself comes in, in the version written,
   nothing is sent and nothing changes, as long as no other version of it, deletion or retry was written.
   */
  lemma NoEcho(env: Env, t: Tables, seqNo: int, e: Event, record: Record, now: int,
               worlds: seq<Processor.World>, events: seq<Processor.RecordEvent>, i: nat)
    requires Acceptable(e) && env.create(now, seqNo, record).Ok? && RowsOk(t.rows) && i < |events|
    requires var created := env.create(now, seqNo, record).value; !Blank(created.uri) && !Blank(created.cid)
    requires Processor.Handles(worlds, events) && worlds[0].rows == WriteRecord(env, t, seqNo, e, record, now).t.rows
    requires var created := env.create(now, seqNo, record).value;
      && |worlds[0].handled| <= |worlds[|events|].handled|
      && forall v <- worlds[|events|].handled[|worlds[0].handled|..] ::
           v.uri == created.uri ==> v == Processor.Version(created.uri, Trim(created.cid))
    ensures var created := env.create(now, seqNo, record).value;
      (!events[i].deletion && events[i].record.uri == created.uri && Trim(events[i].record.cid) == Trim(created.cid)) ==>
        worlds[i + 1] == worlds[i]
  {
    var created := env.create(now, seqNo, record).value;
    CreatedIsRecognised(env, t, seqNo, e, record, now);
    CorrelatedIsOk(env, t, seqNo, e, record, now);
    Processor.EchoesDoNothing(worlds, events, created.uri, created.cid, i);
  }

  function Plus(r: BatchResult, n: nat): BatchResult {
    r.(processed := r.processed + n)
  }

  /** One step of a batch of which `all` is the whole outcome and `done` entries are behind. */
  lemma BatchMoves(env: Env, all: BatchResult, t: Tables, h: Handled, log: seq<Entry>, limit: nat, done: nat, now: int)
    requires limit > 0 && t.cursor < |log| && h == EntryStep(env, log, now)(t)
    requires all == Plus(Batch(env, t, log, limit, now), done)
    ensures h.disposition.None? ==> all == BatchResult(h.t, done, false)
    ensures h.disposition.Some? ==> all == Plus(Batch(env, Advance(h.t, h.disposition.value), log, limit - 1, now), done + 1)
  {
  }

  // ---------------------------------------------------------------- the processor

  class ReverseProcessor {
    const env: Env
    const db: MessageTable
    var events: Events
    var mappings: map<string, Mapping>
    var accounts: map<string, string>
    var cursor: nat
    var remote: seq<RemoteOp>
    ghost var passed: seq<Disposition>

    ghost function State(): Tables
      reads this, db
    {
      Tables(events, db.rows, mappings, accounts, cursor, passed, remote)
    }

    constructor (env: Env, db: MessageTable, accounts: map<string, string>)
      ensures this.env == env && this.db == db
      ensures State() == Init(accounts).(rows := db.rows)
    {
      this.env := env;
      this.db := db;
      this.accounts := accounts;
      events, mappings, cursor, remote, passed := map[], map[], 0, [], [];
    }

    method AddReverseIdentityMapping(feed: string, mapping: Mapping)
      modifies `mappings
      ensures State() == Map(old(State()), feed, mapping)
    {
      if Blank(feed) || Blank(mapping.did) {
        return;
      }
      mappings := mappings[Trim(feed) := mapping.(did := Trim(mapping.did))];
    }

    method RemoveReverseIdentityMapping(name: string)
      modifies `mappings
      ensures State() == Unmap(old(State()), name)
    {
      var feed := Trim(name);
      if feed in mappings {
        mappings := mappings[feed := mappings[feed].(active := false)];
      }
    }

    method PersistReverseEvent(e: Event) returns (disposition: Option<Disposition>)
      modifies `events
      ensures Handled(State(), disposition) == Persist(old(State()), e)
    {
      if Blank(e.ref) || Blank(e.author) || Blank(e.did) || e.action.NoAction? {
        return None;
      }
      var stored := Stored(e);
      if e.ref in events {
        stored := stored.(attempts := events[e.ref].attempts + e.attempts);
      }
      events := events[e.ref := stored];
      return Some(Recorded);
    }

    method PersistForwardCorrelation(e: Event, record: Record, now: int)
      modifies db
      ensures State() == Correlated(env, old(State()), e, record, now)
    {
      if !Blank(e.resultUri) {
        db.AddMessage(CorrelationRow(env, e, record), now);
      }
    }

    /** Completes a post or a profile before it is created. */
    method EnrichRecord(seqNo: int, content: Ssb, record: Record, now: int) returns (enriched: Enriched)
      ensures enriched == Enrich(env, State(), seqNo, content, record, now)
    {
      if record.PostRecord? {
        var images := env.images(now, seqNo, content, record.text);
        if images.ImagesFailed? {
          return EnrichFailed(images.error);
        } else if images.ImagesDeferred? {
          return EnrichDeferred(images.reason);
        }
        var dids := DidAnswerOf(mappings, accounts);
        var facets := BuildReverseFacets(images.text, content.mentions, images.embedded, dids, UrlsOf(env, images.text));
        if facets.Err? {
          return EnrichFailed(facets.error);
        }
        return EnrichReady(PostRecord(images.text, record.thread, facets.value, images.count));
      } else if record.ProfileRecord? {
        var avatar := env.avatar(now, seqNo, content);
        if avatar.AvatarFailed? {
          return EnrichFailed(avatar.error);
        } else if avatar.AvatarDeferred? {
          return EnrichDeferred(avatar.reason);
        }
        return EnrichReady(ProfileRecord(record.name, record.description, avatar.set_));
      }
      return EnrichReady(record);
    }

    method DeleteRecord(seqNo: int, event: Event, deleteUri: string, now: int) returns (disposition: Option<Disposition>)
      modifies `events, `remote
      ensures Handled(State(), disposition) == WriteDeletion(env, old(State()), seqNo, event, deleteUri, now)
    {
      var error := env.remove(now, seqNo, deleteUri);
      if error.Some? {
        disposition := PersistReverseEvent(Failing(event, error.value));
        return;
      }
      remote := remote + [RemoteOp(event.ref, deleteUri, true)];
      disposition := PersistReverseEvent(Deleted(event, deleteUri, now));
    }

    method CreateRecord(seqNo: int, event: Event, record: Record, now: int) returns (disposition: Option<Disposition>)
      modifies `events, `remote, db
      ensures Handled(State(), disposition) == WriteRecord(env, old(State()), seqNo, event, record, now)
    {
      var created := env.create(now, seqNo, record);
      if created.Err? {
        disposition := PersistReverseEvent(Failing(event, created.error));
        return;
      }
      remote := remote + [RemoteOp(event.ref, created.value.uri, false)];
      var published := Succeeded(event, created.value, now);
      PersistForwardCorrelation(published, record, now);
      disposition := PersistReverseEvent(published);
    }

    /** Carries out an event with the author's credential. */
    method CarryOutEvent(seqNo: int, content: Ssb, e: Event, record: Record, deleteUri: string, now: int)
      returns (disposition: Option<Disposition>)
      modifies `events, `remote, db
      ensures Handled(State(), disposition) == CarryOut(env, old(State()), seqNo, content, e, record, deleteUri, now)
    {
      var missing := env.credential(now, e.did);
      if missing.Some? {
        disposition := PersistReverseEvent(Deferring(e, "credentials_" + missing.value));
        return;
      }
      var event := e.(attempts := 1, lastAttempt := Some(now));
      var refused := env.session(now, seqNo);
      if refused.Some? {
        disposition := PersistReverseEvent(Failing(event, refused.value));
        return;
      }
      if event.action.UnfollowAction? {
        disposition := DeleteRecord(seqNo, event, deleteUri, now);
        return;
      }
      var enriched := EnrichRecord(seqNo, content, record, now);
      match enriched
      case EnrichFailed(error) => disposition := PersistReverseEvent(Failing(event, error));
      case EnrichDeferred(reason) => disposition := PersistReverseEvent(Deferring(event, reason));
      case EnrichReady(ready) => disposition := CreateRecord(seqNo, event, ready, now);
    }

    /** Deals with one message; no disposition means that it could not be dealt with. */
    method ProcessDecodedMessage(raw: Incoming, force: bool, now: int) returns (disposition: Option<Disposition>)
      modifies `events, `remote, db
      ensures Handled(State(), disposition) == Handle(env, old(State()), raw, force, now)
    {
      var m := Trimmed(raw);
      if m.ref == "" || m.author == "" {
        return Some(Malformed);
      }
      if !force && m.ref in events && !events[m.ref].state.Waiting? {
        return Some(AlreadyHandled);
      }
      if m.author !in mappings || !mappings[m.author].active {
        return Some(NotMapped);
      }
      var mapping := mappings[m.author];
      var content := env.decode(m.raw);
      if content.None? {
        disposition := PersistReverseEvent(Failing(BaseEvent(m, mapping.did, NoAction), "decode_ssb_json"));
        return;
      }
      var built := Build(env.lookups, events, db.rows, m, mapping, content.value, DidLookupOf(mappings, accounts));
      if built.AsksNothing? {
        return Some(NotTranslated);
      }
      if built.event.state.Deferred? || built.event.state.Skipped? {
        disposition := PersistReverseEvent(built.event);
        return;
      }
      disposition := CarryOutEvent(m.seqNo, content.value, built.event, built.record, built.deleteUri, now);
    }

    method ProcessStoredMessage(seqNo: int, entry: Entry, now: int) returns (disposition: Option<Disposition>)
      modifies `events, `remote, db
      ensures Handled(State(), disposition) == HandleEntry(env, old(State()), seqNo, entry, now)
    {
      match entry
      case Unreadable => return None;
      case NoMetadata => return Some(Malformed);
      case Entry(_, _, _, _, _) => disposition := ProcessDecodedMessage(IncomingOf(seqNo, entry), false, now);
    }

    /** Deals with the entry after the cursor, in a batch whose whole outcome is `all`. */
    method ProcessNext(log: seq<Entry>, now: int, ghost all: BatchResult, ghost limit: nat, ghost done: nat)
      returns (disposition: Option<Disposition>)
      requires cursor < |log| && limit > 0 && all == Plus(Batch(env, State(), log, limit, now), done)
      modifies `events, `remote, db
      ensures disposition.None? ==> all == BatchResult(State(), done, false)
      ensures disposition.Some? ==> all == Plus(Batch(env, Advance(State(), disposition.value), log, limit - 1, now), done + 1)
    {
      ghost var before := State();
      disposition := ProcessStoredMessage(cursor + 1, log[cursor], now);
      BatchMoves(env, all, before, Handled(State(), disposition), log, limit, done, now);
    }

    /** Deals with the entry after the cursor and, if it could, moves the cursor past it. */
    method ProcessAndAdvance(log: seq<Entry>, now: int, ghost all: BatchResult, ghost limit: nat, ghost done: nat) returns (moved: bool)
      requires cursor < |log| && limit > 0 && all == Plus(Batch(env, State(), log, limit, now), done)
      modifies this, db
      ensures !moved ==> all == BatchResult(State(), done, false)
      ensures moved ==> all == Plus(Batch(env, State(), log, limit - 1, now), done + 1)
    {
      var disposition := ProcessNext(log, now, all, limit, done);
      if disposition.None? {
        return false;
      }
      ghost var here := State();
      cursor := cursor + 1;
      passed := passed + [disposition.value];
      assert State() == Advance(here, disposition.value);
      return true;
    }

    /** Moves the cursor over the receive log, one entry dealt with at a time. */
    method ProcessBatch(log: seq<Entry>, limit: int, now: int) returns (processed: nat, ok: bool)
      modifies this, db
      ensures BatchResult(State(), processed, ok) == Batch(env, old(State()), log, LimitOf(limit), now)
    {
      var most := LimitOf(limit);
      processed := 0;
      ghost var all := Batch(env, State(), log, most, now);
      while cursor < |log| && processed < most
        invariant processed <= most
        invariant all == Plus(Batch(env, State(), log, most - processed, now), processed)
        decreases most - processed
      {
        var moved := ProcessAndAdvance(log, now, all, most - processed, processed);
        if !moved {
          return processed, false;
        }
        processed := processed + 1;
      }
      return processed, true;
    }

    method RetryEvent(name: string, now: int) returns (disposition: Option<Disposition>)
      modifies `events, `remote, db
      ensures Handled(State(), disposition) == Retry(env, old(State()), name, now)
    {
      var ref := Trim(name);
      if ref == "" || ref !in events || events[ref].state.Published? || events[ref].state.Skipped? {
        return None;
      }
      var e := events[ref];
      events := events[ref := e.(state := Waiting, error := "", reason := "")];
      disposition := ProcessDecodedMessage(Incoming(e.seqNo, e.ref, e.author, e.sequence, e.rawSsb), true, now);
    }
  }
}
