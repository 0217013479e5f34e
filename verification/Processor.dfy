/**
 The record processor: it maps a record, makes the records it refers to available first, and takes
 the message through its lifecycle. Making a record available may process that record, and so on.

 The module proves that this recursion ends on any reference graph, goes through each requested URI at
 most once, nests at most sixteen deep and fetches at most 256 records; that a dependency cannot make
 the record itself fail; that every row keeps its promise and every published message is presentable;
 and that a record bridged before is neither published again nor changed by anything but another
 version of it.
 */
module Processor {
  import opened Wrappers
  import opened Text
  import opened Mapper
  import opened DeferReason
  import opened Messages
  import opened Lifecycle

  const MAX_DEPTH := 16
  const MAX_FETCHED := 256

  // ---------------------------------------------------------------- lookups

  function RefOf(rows: Rows, uri: string): string {
    if uri in rows then Trim(rows[uri].ref) else ""
  }

  function UriLookup(rows: Rows): string -> string {
    uri => RefOf(rows, uri)
  }

  /** The message after resolving its references against a table. */
  function Resolved(env: Env, rows: Rows, content: Content): Content {
    Replaced(content, UriLookup(rows), env.feeds)
  }

  /** The references a message waits for that processing another record may provide. */
  function DependencyOf(content: Content, field: Field): seq<string> {
    if Pending(content, field) then [Trim(Printed(content[field]))] else []
  }

  function Dependencies(content: Content): seq<string> {
    DependencyOf(content, ReplyRootRef) + DependencyOf(content, ReplyParentRef)
      + DependencyOf(content, SubjectRef) + DependencyOf(content, QuoteRef)
  }

  /** A record whose row has a reference and an identifier, the same one: it was bridged before. */
  predicate Duplicate(rows: Rows, uri: string, cid: string) {
    uri in rows && !Blank(rows[uri].ref) && !Blank(rows[uri].cid) && Trim(rows[uri].cid) == Trim(cid)
  }

  function Mapped(env: Env, did: string, collection: Collection, json: string, deleted: bool): Option<Content> {
    if deleted then MapDelete(env.codec, collection, did, json) else MapRecord(env.codec, collection, did, json)
  }

  /** The row of a record before its lifecycle: still pending, with the message as mapped. */
  function NewRow(record: Fetched, content: Content): Message {
    Message(record.uri, record.cid, "", record.did, record.collection, PendingState, record.json, Some(content), None, "", 0, None,
      "", 0, None, None, None, "", TextOf(content, ReplyRootRef), TextOf(content, ReplyParentRef), None)
  }

  function TextOf(content: Content, field: Field): string {
    if field in content && content[field].Words? then content[field].text else ""
  }

  // ---------------------------------------------------------------- what processing may change

  /** A write of a record: a version of it that came in, or anything else. */
  datatype Version = Version(uri: string, cid: string) | Rewrite(uri: string)

  /** None of the writes was another version, a deletion or a retry of a bridged row. */
  ghost predicate Untouched(row: Message, news: seq<Version>) {
    forall v <- news :: v.uri == row.uri ==> v == Version(row.uri, Trim(row.cid))
  }

  predicate Bridged(row: Message) {
    !Blank(row.ref) && !Blank(row.cid)
  }

  /** A bridged row changes only through another version of its record, or a rewrite. */
  ghost predicate Kept(before: Rows, after: Rows, news: seq<Version>) {
    forall uri <- before :: Bridged(before[uri]) && Untouched(before[uri], news) ==> uri in after && after[uri] == before[uri]
  }

  lemma KeptNothing(rows: Rows)
    ensures Kept(rows, rows, [])
  {
  }

  lemma UntouchedParts(row: Message, a: seq<Version>, b: seq<Version>)
    requires Untouched(row, a + b)
    ensures Untouched(row, a) && Untouched(row, b)
  {
    forall v <- a ensures v.uri == row.uri ==> v == Version(row.uri, Trim(row.cid)) {
      assert v in a + b;
    }
    forall v <- b ensures v.uri == row.uri ==> v == Version(row.uri, Trim(row.cid)) {
      assert v in a + b;
    }
  }

  lemma KeptTransitive(a: Rows, b: Rows, c: Rows, ab: seq<Version>, bc: seq<Version>)
    requires Kept(a, b, ab) && Kept(b, c, bc)
    ensures Kept(a, c, ab + bc)
  {
    forall uri <- a | Bridged(a[uri]) && Untouched(a[uri], ab + bc) ensures uri in c && c[uri] == a[uri] {
      UntouchedParts(a[uri], ab, bc);
    }
  }

  /** A write keeps the rows bridged at the start, as long as it was no duplicate then. */
  lemma KeptByWrite(before: Rows, rows: Rows, news: seq<Version>, msg: Message, now: int, version: Version)
    requires RowsOk(before) && Kept(before, rows, news) && version.uri == msg.uri
    requires version.Version? ==> !Duplicate(before, msg.uri, version.cid) && Trim(version.cid) == version.cid
    ensures Kept(before, Upsert(rows, msg, now), news + [version])
  {
    forall uri <- before | Bridged(before[uri]) && Untouched(before[uri], news + [version])
      ensures uri in Upsert(rows, msg, now) && Upsert(rows, msg, now)[uri] == before[uri]
    {
      UntouchedParts(before[uri], news, [version]);
      assert version in [version];
    }
  }

  ghost predicate SentOk(sent: seq<Sent>) {
    forall s <- sent :: !s.retried ==> Presentable(s.content)
  }

  /** The tables at one moment: the rows, the calls to the publisher, and the versions written so far. */
  datatype World = World(rows: Rows, sent: seq<Sent>, handled: seq<Version>)

  ghost predicate WorldOk(w: World) {
    RowsOk(w.rows) && SentOk(w.sent)
  }

  /** The reference that the last successful call for a record gave its message, if there was one. */
  function LastAnswer(sent: seq<Sent>, uri: string): Option<string> {
    if sent == [] then None
    else
      var last := sent[|sent| - 1];
      if last.uri == uri && last.result.Ok? then Some(last.result.value) else LastAnswer(sent[..|sent| - 1], uri)
  }

  lemma {:induction false} LastAnswerOfParts(a: seq<Sent>, b: seq<Sent>, uri: string)
    ensures LastAnswer(a + b, uri) == if LastAnswer(b, uri).Some? then LastAnswer(b, uri) else LastAnswer(a, uri)
  {
    if b == [] {
      assert a + b == a;
    } else {
      assert (a + b)[..|a + b| - 1] == a + b[..|b| - 1];
      LastAnswerOfParts(a, b[..|b| - 1], uri);
    }
  }

  /** A published row has the reference that the last successful call for it gave; without a call it was published before. */
  predicate AnsweredAt(before: Rows, after: Rows, calls: seq<Sent>, uri: string)
    requires uri in after
  {
    after[uri].state.PublishedState? ==>
      if LastAnswer(calls, uri).Some? then LastAnswer(calls, uri) == Some(after[uri].ref)
      else uri in before && before[uri].state.PublishedState? && before[uri].ref == after[uri].ref
  }

  ghost predicate Answered(before: Rows, after: Rows, calls: seq<Sent>) {
    forall uri <- after :: AnsweredAt(before, after, calls, uri)
  }

  lemma AnsweredTransitive(a: Rows, b: Rows, c: Rows, ab: seq<Sent>, bc: seq<Sent>)
    requires Answered(a, b, ab) && Answered(b, c, bc)
    ensures Answered(a, c, ab + bc)
  {
    forall uri <- c ensures AnsweredAt(a, c, ab + bc, uri) {
      LastAnswerOfParts(ab, bc, uri);
      assert AnsweredAt(b, c, bc, uri);
      assert uri in b ==> AnsweredAt(a, b, ab, uri);
    }
  }

  /** A row as written was published by the one call made for it, whose result it keeps. */
  predicate Credits(msg: Message, calls: seq<Sent>) {
    if msg.state.PublishedState? then |calls| == 1 && calls[0].uri == msg.uri && calls[0].result == Ok(msg.ref)
    else |calls| <= 1 && forall i :: 0 <= i < |calls| ==> calls[i].uri == msg.uri
  }

  lemma WriteIsAnswered(rows: Rows, msg: Message, now: int, calls: seq<Sent>)
    requires Credits(msg, calls)
    ensures Answered(rows, Upsert(rows, msg, now), calls)
  {
    var after := Upsert(rows, msg, now);
    assert calls != [] ==> calls[..|calls| - 1] == [];
    forall uri <- after ensures AnsweredAt(rows, after, calls, uri) {
      assert uri != msg.uri ==> LastAnswer(calls, uri) == None;
    }
  }

  /** Nothing sent or handled is forgotten, and bridged rows were kept. */
  ghost predicate Onward(a: World, b: World) {
    a.sent <= b.sent && a.handled <= b.handled && Kept(a.rows, b.rows, b.handled[|a.handled|..])
  }

  /** A later world: one where, besides, each row published since has the reference that its last successful call gave. */
  ghost predicate Later(a: World, b: World) {
    Onward(a, b) && Answered(a.rows, b.rows, b.sent[|a.sent|..])
  }

  lemma OnwardReflexive(w: World)
    ensures Onward(w, w)
  {
    assert w.handled[|w.handled|..] == [];
    KeptNothing(w.rows);
  }

  lemma LaterReflexive(w: World)
    ensures Later(w, w)
  {
    OnwardReflexive(w);
    assert w.sent[|w.sent|..] == [];
  }

  lemma OnwardTransitive(a: World, b: World, c: World)
    requires Onward(a, b) && Onward(b, c)
    ensures Onward(a, c)
  {
    KeptTransitive(a.rows, b.rows, c.rows, b.handled[|a.handled|..], c.handled[|b.handled|..]);
    assert c.handled[|a.handled|..] == b.handled[|a.handled|..] + c.handled[|b.handled|..];
  }

  lemma LaterTransitive(a: World, b: World, c: World)
    requires Later(a, b) && Later(b, c)
    ensures Later(a, c)
  {
    OnwardTransitive(a, b, c);
    AnsweredTransitive(a.rows, b.rows, c.rows, b.sent[|a.sent|..], c.sent[|b.sent|..]);
    assert c.sent[|a.sent|..] == b.sent[|a.sent|..] + c.sent[|b.sent|..];
  }

  /** Taking a new row through its lifecycle and writing it. */
  function Finished(env: Env, w: World, msg: Message, content: Content, blobError: Option<string>, version: Version, now: int): World {
    var d := Decide(env, msg, content, blobError, |w.sent|, now);
    World(Upsert(w.rows, d.msg, now), w.sent + d.sent, w.handled + [version])
  }

  lemma FinishingKeepsOk(env: Env, start: World, w: World, msg: Message, content: Content,
                         blobError: Option<string>, version: Version, now: int)
    requires PublisherOk(env) && WorldOk(start) && WorldOk(w) && Later(start, w)
    requires msg.ref == "" && version.uri == msg.uri
    requires version.Version? ==> !Duplicate(start.rows, msg.uri, version.cid) && Trim(version.cid) == version.cid
    ensures var after := Finished(env, w, msg, content, blobError, version, now); WorldOk(after) && Later(start, after)
  {
    var d := Decide(env, msg, content, blobError, |w.sent|, now);
    DecidedRowIsOk(env, msg, content, blobError, |w.sent|, now);
    SendsOnlyResolved(env, msg, content, blobError, |w.sent|, now);
    UpsertKeepsRowsOk(w.rows, d.msg, now);
    KeptByWrite(start.rows, w.rows, w.handled[|start.handled|..], d.msg, now, version);
    var after := Finished(env, w, msg, content, blobError, version, now);
    assert after.handled[|start.handled|..] == w.handled[|start.handled|..] + [version];
    SentStaysOk(w.sent, d.sent);
    FinishedIsAnswered(env, start, w, msg, content, blobError, version, now);
  }

  lemma FinishedIsAnswered(env: Env, start: World, w: World, msg: Message, content: Content,
                           blobError: Option<string>, version: Version, now: int)
    requires Later(start, w)
    ensures var after := Finished(env, w, msg, content, blobError, version, now);
      start.sent <= after.sent && Answered(start.rows, after.rows, after.sent[|start.sent|..])
  {
    var d := Decide(env, msg, content, blobError, |w.sent|, now);
    PublishedIsAnswer(env, msg, content, blobError, |w.sent|, now);
    assert Credits(d.msg, d.sent);
    WriteIsAnswered(w.rows, d.msg, now, d.sent);
    AnsweredTransitive(start.rows, w.rows, Upsert(w.rows, d.msg, now), w.sent[|start.sent|..], d.sent);
    assert (w.sent + d.sent)[|start.sent|..] == w.sent[|start.sent|..] + d.sent;
  }

  lemma SentStaysOk(sent: seq<Sent>, more: seq<Sent>)
    requires SentOk(sent) && forall s <- more :: !s.retried ==> Presentable(s.content)
    ensures SentOk(sent + more)
  {
  }

  function MappedRecord(env: Env, record: Fetched): Option<Content> {
    MapRecord(env.codec, record.collection, record.did, record.json)
  }

  /** What processing a record, with its references resolved, makes of the world its dependencies left behind. */
  function RecordFinished(env: Env, mid: World, record: Fetched, content: Content, now: int): World {
    Finished(env, mid, NewRow(record, content), content, env.blobs(record.uri), Version(record.uri, Trim(record.cid)), now)
  }

  /** The message of a deferred candidate, resolved again. */
  function ResolvedAgain(env: Env, start: Rows, rows: Rows, candidate: Message): Content
    requires MappedAgain(env, candidate).Some?
  {
    Resolved(env, rows, Resolved(env, start, MappedAgain(env, candidate).value))
  }

  function MappedAgain(env: Env, candidate: Message): Option<Content> {
    Mapped(env, candidate.did, candidate.collection, candidate.rawAt, candidate.deletedAt.Some?)
  }

  // ---------------------------------------------------------------- what processing a record comes to

  /** A world in the midst of a root's processing: with the scope of the root, and the fetches made by all roots. */
  datatype Scene = Scene(w: World, visited: set<string>, fetched: nat, fetches: nat, processed: seq<string>)

  /** The scene a root enters with a scope of its own. */
  function Entering(w: World, fetches: nat, uri: string): Scene {
    Scene(w, if Trim(uri) == "" then {} else {Trim(uri)}, 0, fetches, [])
  }

  /** What is left of a scene once its root is done. */
  predicate Alone(w: World, fetches: nat, asked: seq<string>, sc: Scene) {
    w == sc.w && fetches == sc.fetches && asked == sc.processed
  }

  /** A deferred or pending row can be processed again from what it stores. */
  predicate Reprocessable(row: Message) {
    (row.state.DeferredState? || row.state.PendingState?) && !Blank(row.rawAt) && Supported(row.collection)
  }

  function RecordOf(row: Message): Fetched {
    Fetched(row.did, row.uri, row.cid, row.collection, row.rawAt)
  }

  /** Processing a record at some depth of a root's resolution. */
  function Processed(env: Env, sc: Scene, depth: nat, record: Fetched, now: int): Scene
    requires depth <= MAX_DEPTH
    decreases MAX_DEPTH - depth, 3, 0
  {
    match MappedRecord(env, record)
    case None => sc
    case Some(content) =>
      if Duplicate(sc.w.rows, record.uri, record.cid) then sc
      else
        var after := Hydrated(env, sc, depth, content, now);
        var resolved := Resolved(env, after.w.rows, Resolved(env, sc.w.rows, content));
        after.(w := RecordFinished(env, after.w, record, resolved, now))
  }

  /** Making available what a message, as it was mapped, refers to and the table does not resolve. */
  function Hydrated(env: Env, sc: Scene, depth: nat, content: Content, now: int): Scene
    requires depth <= MAX_DEPTH
    decreases MAX_DEPTH - depth, 2, 0
  {
    if env.fetcher.None? then sc
    else
      var uris := Dependencies(Resolved(env, sc.w.rows, content));
      EnsuredAll(env, sc, depth, uris, |uris|, now)
  }

  function EnsuredAll(env: Env, sc: Scene, depth: nat, uris: seq<string>, n: nat, now: int): Scene
    requires depth <= MAX_DEPTH && n <= |uris| && env.fetcher.Some?
    decreases MAX_DEPTH - depth, 1, n
  {
    if n == 0 then sc else Ensured(env, EnsuredAll(env, sc, depth, uris, n - 1, now), depth, uris[n - 1], now)
  }

  /** Making one record available, unless it is too deep or was asked for before. */
  function Ensured(env: Env, sc: Scene, depth: nat, name: string, now: int): Scene
    requires depth <= MAX_DEPTH && env.fetcher.Some?
    decreases MAX_DEPTH - depth, 0, 3
  {
    var uri := Trim(name);
    if uri == "" || depth + 1 > MAX_DEPTH || uri in sc.visited then sc
    else Provided(env, sc.(visited := sc.visited + {uri}), depth, uri, now)
  }

  function Provided(env: Env, sc: Scene, depth: nat, uri: string, now: int): Scene
    requires depth < MAX_DEPTH && env.fetcher.Some?
    decreases MAX_DEPTH - depth, 0, 2
  {
    var row := Get(sc.w.rows, uri);
    if row.Some? && !Blank(row.value.ref) then sc
    else if row.Some? && Reprocessable(row.value) then Reprocessed(env, sc, depth, uri, RecordOf(row.value), now)
    else if row.Some? && row.value.state.FailedState? then sc
    else Requested(env, sc, depth, uri, now)
  }

  function Fetch(env: Env, n: nat, uri: string): Result<Fetched>
    requires env.fetcher.Some?
  {
    env.fetcher.value(n, uri)
  }

  /** Asking the host of a record for it, within the root's budget. */
  function Asked(env: Env, sc: Scene, uri: string): (Scene, Result<Fetched>)
    requires env.fetcher.Some?
  {
    if sc.fetched >= MAX_FETCHED then (sc, Err("dependency fetch limit exceeded"))
    else
      var asked := sc.(fetched := sc.fetched + 1, fetches := sc.fetches + 1);
      match Fetch(env, asked.fetches, uri)
      case Err(error) => (asked, Err(error))
      case Ok(record) => (asked, if Supported(record.collection) then Ok(record) else Err("unsupported dependency collection"))
  }

  function Requested(env: Env, sc: Scene, depth: nat, uri: string, now: int): Scene
    requires depth < MAX_DEPTH && env.fetcher.Some?
    decreases MAX_DEPTH - depth, 0, 1
  {
    match Asked(env, sc, uri)
    case (asked, Err(_)) => asked
    case (asked, Ok(record)) => Reprocessed(env, asked, depth, uri, record, now)
  }

  function Reprocessed(env: Env, sc: Scene, depth: nat, uri: string, record: Fetched, now: int): Scene
    requires depth < MAX_DEPTH
    decreases MAX_DEPTH - depth, 0, 0
  {
    Processed(env, sc.(processed := sc.processed + [uri]), depth + 1, record, now)
  }

  /** A world between roots, with the fetches made so far. */
  datatype Site = Site(w: World, fetches: nat)

  /** Attempting a deferred candidate: what it leaves, the world once its dependencies were made available, the state it reached. */
  datatype Attempt = Attempt(site: Site, mid: World, state: Messages.State)

  /** The decision on a candidate's message, resolved, where its dependencies have been made available. */
  function AgainDone(env: Env, mid: Site, candidate: Message, content: Content, now: int): Attempt {
    var row, blobError := DeferredRow(candidate, content, now), BlobErrorOf(env, candidate);
    Attempt(Site(Finished(env, mid.w, row, content, blobError, Rewrite(candidate.uri), now), mid.fetches), mid.w,
      Decide(env, row, content, blobError, |mid.w.sent|, now).msg.state)
  }

  /** A deferred message attempted again, from its stored record and as a root; its row is not read. */
  function Again(env: Env, s: Site, candidate: Message, now: int): Attempt {
    match MappedAgain(env, candidate)
    case None => Attempt(s, s.w, FailedState)
    case Some(content) =>
      var sc := Hydrated(env, Entering(s.w, s.fetches, candidate.uri), 0, content, now);
      AgainDone(env, Site(sc.w, sc.fetches), candidate, ResolvedAgain(env, s.w.rows, sc.w.rows, candidate), now)
  }

  // ---------------------------------------------------------------- dependency scope

  ghost predicate Distinct(uris: seq<string>) {
    forall i, j :: 0 <= i < j < |uris| ==> uris[i] != uris[j]
  }

  /** What was processed since some URIs had been visited was none of those. */
  ghost predicate Added(visited: set<string>, before: seq<string>, after: seq<string>) {
    before <= after && forall uri <- after[|before|..] :: uri !in visited
  }

  /**
   What one root has asked for so far. `processed` lists the requested URIs for which a record was
   handed to the processor.
   */
  class Scope {
    const root: string
    var visited: set<string>
    var fetched: nat
    ghost var processed: seq<string>

    constructor (root: string)
      ensures this.root == root && fetched == 0 && processed == []
      ensures visited == if root == "" then {} else {root}
    {
      this.root := root;
      visited := if root == "" then {} else {root};
      fetched := 0;
      processed := [];
    }

    ghost predicate Valid()
      reads this
    {
      && fetched <= MAX_FETCHED
      && Distinct(processed)
      && (forall uri <- processed :: uri in visited && uri != root && uri != "")
      && (root != "" ==> root in visited)
    }

    /** The scope has only grown, and what it processed since was not visited before. */
    twostate predicate Grown()
      reads this
    {
      && old(visited) <= visited
      && old(fetched) <= fetched
      && Added(old(visited), old(processed), processed)
    }
  }

  /** What was processed after a URI was noted, and the URI itself, were new but for it. */
  lemma AddedAfter(visited: set<string>, before: seq<string>, uri: string, after: seq<string>)
    requires Added(visited, before + [uri], after)
    ensures Added(visited - {uri}, before, after)
  {
    assert before <= before + [uri] <= after;
    assert after[|before|..] == [uri] + after[|before + [uri]|..];
  }

  lemma DistinctGrows(uris: seq<string>, uri: string)
    requires Distinct(uris) && uri !in uris
    ensures Distinct(uris + [uri])
  {
  }

  /** The row of a deferral that waited too long. */
  function Expired(row: Message): Message {
    row.(state := FailedState, publishError := "deferred_ttl_expired")
  }

  /** The table once the first candidates are given up. */
  function ExpiredAll(rows: Rows, candidates: seq<Message>, n: nat, now: int): Rows
    requires n <= |candidates|
  {
    if n == 0 then rows else Upsert(ExpiredAll(rows, candidates, n - 1, now), Expired(candidates[n - 1]), now)
  }

  lemma {:induction false} GivenUpAreFailed(rows: Rows, candidates: seq<Message>, n: nat, now: int)
    requires n <= |candidates|
    ensures var after := ExpiredAll(rows, candidates, n, now);
      forall i :: 0 <= i < n ==> candidates[i].uri in after && after[candidates[i].uri].state.FailedState?
  {
    if n > 0 {
      GivenUpAreFailed(rows, candidates, n - 1, now);
    }
  }

  /** The row of a candidate that was given up: failed, with the reason, and otherwise with what it had. */
  predicate IsGivenUp(row: Message, candidate: Message) {
    && row.state == FailedState && row.publishError == "deferred_ttl_expired"
    && row.deferReason == candidate.deferReason && row.payload == candidate.payload
  }

  lemma GivingUpOne(rows: Rows, candidate: Message, now: int, uri: string)
    ensures var after := Upsert(rows, Expired(candidate), now);
      if uri == candidate.uri then uri in after && IsGivenUp(after[uri], candidate) else SameRow(rows, after, uri)
  {
  }

  predicate SameRow(before: Rows, after: Rows, uri: string) {
    (uri in after <==> uri in before) && (uri in before ==> after[uri] == before[uri])
  }

  /** Giving up on distinct candidates fails each of them, with the reason, and leaves every other row alone. */
  lemma {:induction false} ExpiredAreFailed(rows: Rows, candidates: seq<Message>, n: nat, now: int, uri: string)
    requires n <= |candidates| && forall i, j :: 0 <= i < j < |candidates| ==> candidates[i].uri != candidates[j].uri
    ensures var after := ExpiredAll(rows, candidates, n, now);
      && ((forall i :: 0 <= i < n ==> candidates[i].uri != uri) ==> SameRow(rows, after, uri))
      && (forall i :: 0 <= i < n && candidates[i].uri == uri ==> uri in after && IsGivenUp(after[uri], candidates[i]))
  {
    if n > 0 {
      ExpiredAreFailed(rows, candidates, n - 1, now, uri);
      GivingUpOne(ExpiredAll(rows, candidates, n - 1, now), candidates[n - 1], now, uri);
    }
  }

  // ---------------------------------------------------------------- what handling an event comes to

  /** A create or update of a record, or its deletion, which may come without content. */
  datatype RecordEvent = RecordEvent(deletion: bool, record: Fetched, seqNo: int)

  /** The row that a deletion event makes of the one there was. */
  function RowOfDeletion(rows: Rows, event: RecordEvent, now: int): Message {
    var record := event.record;
    DeletedRow(Get(rows, record.uri), record.did, record.uri, record.cid, record.collection, record.json, event.seqNo, now)
  }

  /** Making some records available, each with a scope of its own, as a deletion does. */
  function EnsuredAlone(env: Env, s: Site, uris: seq<string>, n: nat, now: int): Site
    requires n <= |uris| && env.fetcher.Some?
  {
    if n == 0 then s
    else
      var so := EnsuredAlone(env, s, uris, n - 1, now);
      var sc := Ensured(env, Entering(so.w, so.fetches, ""), 0, uris[n - 1], now);
      Site(sc.w, sc.fetches)
  }

  /** Making available what the message of a deletion refers to. */
  function HydratedAlone(env: Env, s: Site, content: Content, now: int): Site {
    if env.fetcher.None? then s
    else
      var uris := Dependencies(content);
      EnsuredAlone(env, s, uris, |uris|, now)
  }

  /** The message that undoes a record taken through the lifecycle, as the message of the record's row. */
  function Undone(env: Env, mid: Site, row: Message, undoing: Content, now: int): Site {
    mid.(w := Finished(env, mid.w, row.(payload := Some(undoing)), undoing, None, Rewrite(row.uri), now))
  }

  /**
   A deletion handled: the row is marked deleted; or the message that undoes the record goes through the lifecycle, once
   what it refers to was made available; or, when there is no such message, nothing happens.
   */
  function DeletionHandled(env: Env, before: Site, event: RecordEvent, now: int): Site {
    var row := RowOfDeletion(before.w.rows, event, now);
    if OnlyMarked(row) then before.(w := World(Upsert(before.w.rows, row, now), before.w.sent, before.w.handled + [Rewrite(row.uri)]))
    else
      match MapDelete(env.codec, row.collection, row.did, row.rawAt)
      case None => before
      case Some(content) =>
        var first := Resolved(env, before.w.rows, content);
        var mid := HydratedAlone(env, before, first, now);
        var undoing := Resolved(env, mid.w.rows, first);
        Undone(env, mid, row, undoing, now)
  }

  /** An event handled: a record is processed as a root of its own, and a deletion as above. */
  function EventHandled(env: Env, before: Site, event: RecordEvent, now: int): Site {
    if event.deletion then DeletionHandled(env, before, event, now)
    else
      var sc := Processed(env, Entering(before.w, before.fetches, event.record.uri), 0, event.record, now);
      Site(sc.w, sc.fetches)
  }

  predicate IsHandled(env: Env, before: Site, event: RecordEvent, after: Site, now: int) {
    after == EventHandled(env, before, event, now)
  }

  /** Events handled one after the other, each from the site that the one before it left. */
  ghost predicate EventsHandled(env: Env, sites: seq<Site>, events: seq<RecordEvent>, now: int) {
    && |sites| == |events| + 1
    && forall i :: 0 <= i < |events| ==> IsHandled(env, sites[i], events[i], sites[i + 1], now)
  }

  function WorldsOf(sites: seq<Site>): seq<World> {
    seq(|sites|, i requires 0 <= i < |sites| => sites[i].w)
  }

  // ---------------------------------------------------------------- the processor

  class RecordProcessor {
    const env: Env
    const db: MessageTable
    var sent: seq<Sent>
    var fetches: nat
    ghost var handled: seq<Version>

    constructor (env: Env, db: MessageTable)
      ensures this.env == env && this.db == db && sent == [] && fetches == 0 && handled == []
    {
      this.env := env;
      this.db := db;
      sent, fetches, handled := [], 0, [];
    }

    ghost function State(): World
      reads this, db
    {
      World(db.rows, sent, handled)
    }

    ghost predicate Valid()
      reads this, db
    {
      PublisherOk(env) && WorldOk(State())
    }

    ghost function SiteNow(): Site
      reads this, db
    {
      Site(State(), fetches)
    }

    ghost function SceneOf(scope: Scope): Scene
      reads this, db, scope
    {
      Scene(State(), scope.visited, scope.fetched, fetches, scope.processed)
    }

    /** Decides on a mapped message in place: sanitizes its fields and sends it, and returns its row. */
    method ApplyMappedMessageLifecycle(message: Message, mapped: MappedMessage, blobError: Option<string>, now: int)
      returns (msg: Message)
      modifies `sent, mapped
      ensures var d := Decide(env, message, old(mapped.fields), blobError, |old(sent)|, now);
        msg == d.msg && mapped.fields == d.content && sent == old(sent) + d.sent
    {
      msg := message;
      if UnresolvedRefs(mapped.fields) != [] {
        msg := Deferred(msg, ReasonOf(mapped.fields), now);
        msg := msg.(publishError := Annotated(msg.publishError, blobError));
        return;
      }
      if env.publisher.None? {
        msg := msg.(state := PendingState, publishError := Annotated(msg.publishError, blobError));
        return;
      }
      mapped.SanitizeForPublish();
      if !Ready(mapped.fields) {
        msg := Deferred(msg, INCOMPLETE, now);
        return;
      }
      msg := Attempted(msg.(payload := Some(mapped.fields)), now).(deferReason := "");
      var result := Publish(env, |sent|, msg.did, mapped.fields);
      sent := sent + [Sent(false, msg.uri, msg.did, mapped.fields, result)];
      if result.Err? {
        msg := Failed(msg, Annotated(result.error, blobError));
        return;
      }
      msg := Published(msg, result.value, now);
      if blobError.Some? {
        msg := msg.(publishError := Annotated("", blobError));
      }
    }

    /** Takes a new row through its lifecycle and stores it. */
    method Finish(message: Message, mapped: MappedMessage, blobError: Option<string>, ghost version: Version, now: int)
      returns (state: Messages.State)
      modifies `sent, `handled, db, mapped
      ensures state == Decide(env, message, old(mapped.fields), blobError, |old(sent)|, now).msg.state
      ensures State() == Finished(env, old(State()), message, old(mapped.fields), blobError, version, now)
    {
      var msg := ApplyMappedMessageLifecycle(message, mapped, blobError, now);
      db.AddMessage(msg, now);
      handled := handled + [version];
      return msg.state;
    }

    /** Maps, resolves, publishes and stores one record, within the scope of the root it is processed for. */
    method Process(scope: Scope, depth: nat, record: Fetched, now: int) returns (ok: bool)
      requires Valid() && scope.Valid() && depth <= MAX_DEPTH
      modifies this, db, scope
      ensures SceneOf(scope) == Processed(env, old(SceneOf(scope)), depth, record, now)
      ensures Valid() && scope.Valid() && scope.Grown()
      ensures Later(old(State()), State())
      ensures fetches - old(fetches) == scope.fetched - old(scope.fetched)
      ensures ok <==> Duplicate(old(db.rows), record.uri, record.cid) || MappedRecord(env, record).Some?
      decreases MAX_DEPTH - depth, 3
    {
      LaterReflexive(State());
      if Duplicate(db.rows, record.uri, record.cid) {
        return true;
      }
      var mapped := MapResolved(scope, depth, record.did, record.collection, record.json, false, now);
      if mapped == null {
        return false;
      }
      FinishRecord(mapped, record, now, old(State()));
      return true;
    }

    /** Takes a mapped record, which was no duplicate at the start, through its lifecycle and stores it. */
    method FinishRecord(mapped: MappedMessage, record: Fetched, now: int, ghost start: World)
      requires Valid() && WorldOk(start) && Later(start, State()) && !Duplicate(start.rows, record.uri, record.cid)
      modifies `sent, `handled, db, mapped
      ensures Valid() && Later(start, State())
      ensures State() == RecordFinished(env, old(State()), record, old(mapped.fields), now)
    {
      var content := mapped.fields;
      var msg := NewRow(record, content);
      TrimTwice(record.cid);
      FinishingKeepsOk(env, start, State(), msg, content, env.blobs(record.uri), Version(record.uri, Trim(record.cid)), now);
      var _ := Finish(msg, mapped, env.blobs(record.uri), Version(record.uri, Trim(record.cid)), now);
    }

    /** Maps a record and resolves its references, before and after making the records they name available. */
    method MapResolved(scope: Scope, depth: nat, did: string, collection: Collection, json: string, deleted: bool, now: int)
      returns (mapped: MappedMessage?)
      requires Valid() && scope.Valid() && depth <= MAX_DEPTH
      modifies this, db, scope
      ensures Valid() && scope.Valid() && scope.Grown()
      ensures Later(old(State()), State())
      ensures fetches - old(fetches) == scope.fetched - old(scope.fetched)
      ensures mapped == null <==> Mapped(env, did, collection, json, deleted).None?
      ensures mapped == null || env.fetcher.None? ==> State() == old(State()) && unchanged(scope)
      ensures mapped != null ==>
        && fresh(mapped)
        && mapped.fields == Resolved(env, db.rows, Resolved(env, old(db.rows), Mapped(env, did, collection, json, deleted).value))
        && SceneOf(scope) == Hydrated(env, old(SceneOf(scope)), depth, Mapped(env, did, collection, json, deleted).value, now)
      decreases MAX_DEPTH - depth, 2
    {
      LaterReflexive(State());
      var content := Mapped(env, did, collection, json, deleted);
      if content.None? {
        return null;
      }
      mapped := new MappedMessage(content.value);
      mapped.ReplaceATProtoRefs(UriLookup(db.rows), env.feeds);
      Hydrate(scope, depth, mapped.fields, now);
      mapped.ReplaceATProtoRefs(UriLookup(db.rows), env.feeds);
    }

    /** Makes the records a message refers to available; what goes wrong with one of them is ignored. */
    method Hydrate(scope: Scope, depth: nat, content: Content, now: int)
      requires Valid() && scope.Valid() && depth <= MAX_DEPTH
      modifies this, db, scope
      ensures Valid() && scope.Valid() && scope.Grown()
      ensures Later(old(State()), State())
      ensures fetches - old(fetches) == scope.fetched - old(scope.fetched)
      ensures env.fetcher.None? ==> State() == old(State()) && unchanged(scope)
      ensures env.fetcher.Some? ==>
        SceneOf(scope) == EnsuredAll(env, old(SceneOf(scope)), depth, Dependencies(content), |Dependencies(content)|, now)
      decreases MAX_DEPTH - depth, 1
    {
      LaterReflexive(State());
      if env.fetcher.None? {
        return;
      }
      var uris := Dependencies(content);
      for i := 0 to |uris|
        invariant Valid() && scope.Valid() && scope.Grown()
        invariant Later(old(State()), State())
        invariant fetches - old(fetches) == scope.fetched - old(scope.fetched)
        invariant SceneOf(scope) == EnsuredAll(env, old(SceneOf(scope)), depth, uris, i, now)
      {
        ghost var before := State();
        var _ := EnsureRecord(scope, depth, uris[i], now);
        LaterTransitive(old(State()), before, State());
      }
    }

    /** Makes one record available: finds it in the table, processes it again from there, or fetches it. */
    method EnsureRecord(scope: Scope, depth: nat, rawUri: string, now: int) returns (r: Result<bool>)
      requires Valid() && scope.Valid() && depth <= MAX_DEPTH && env.fetcher.Some?
      modifies this, db, scope
      ensures SceneOf(scope) == Ensured(env, old(SceneOf(scope)), depth, rawUri, now)
      ensures Valid() && scope.Valid() && scope.Grown()
      ensures Later(old(State()), State())
      ensures fetches - old(fetches) == scope.fetched - old(scope.fetched)
      ensures Blank(rawUri) || depth == MAX_DEPTH ==> r.Err? && State() == old(State()) && unchanged(scope)
      ensures Trim(rawUri) in old(scope.visited) ==> State() == old(State()) && unchanged(scope)
      ensures depth < MAX_DEPTH && !Blank(rawUri) ==> Trim(rawUri) in scope.visited
      decreases MAX_DEPTH - depth, 0, 3
    {
      LaterReflexive(State());
      var uri := Trim(rawUri);
      if uri == "" {
        return Err("dependency at-uri is empty");
      }
      if depth + 1 > MAX_DEPTH {
        return Err("dependency depth exceeded");
      }
      if uri in scope.visited {
        return Ok(false);
      }
      scope.visited := scope.visited + {uri};
      r := Provide(scope, depth, uri, now);
    }

    /** The lookup behind making a record available, for a URI that was not visited before. */
    method Provide(scope: Scope, depth: nat, uri: string, now: int) returns (r: Result<bool>)
      requires Valid() && scope.Valid() && depth < MAX_DEPTH && env.fetcher.Some?
      requires uri in scope.visited && uri !in scope.processed && uri != scope.root && uri != ""
      modifies this, db, scope
      ensures SceneOf(scope) == Provided(env, old(SceneOf(scope)), depth, uri, now)
      ensures Valid() && scope.Valid() && old(scope.visited) <= scope.visited && old(scope.fetched) <= scope.fetched
      ensures Added(old(scope.visited) - {uri}, old(scope.processed), scope.processed)
      ensures Later(old(State()), State())
      ensures fetches - old(fetches) == scope.fetched - old(scope.fetched)
      decreases MAX_DEPTH - depth, 0, 2
    {
      LaterReflexive(State());
      if uri in db.rows {
        var row := db.rows[uri];
        if !Blank(row.ref) {
          return Ok(false);
        }
        if Reprocessable(row) {
          r := Reprocess(scope, depth, uri, RecordOf(row), now);
          return;
        }
        if row.state.FailedState? {
          return Ok(false);
        }
      }
      r := FetchRecord(scope, depth, uri, now);
    }

    /** Fetches a record from its host, within the root's budget, and processes it. */
    method FetchRecord(scope: Scope, depth: nat, uri: string, now: int) returns (r: Result<bool>)
      requires Valid() && scope.Valid() && depth < MAX_DEPTH && env.fetcher.Some?
      requires uri in scope.visited && uri !in scope.processed && uri != scope.root && uri != ""
      modifies this, db, scope
      ensures SceneOf(scope) == Requested(env, old(SceneOf(scope)), depth, uri, now)
      ensures Valid() && scope.Valid() && old(scope.visited) <= scope.visited && old(scope.fetched) <= scope.fetched
      ensures Added(old(scope.visited) - {uri}, old(scope.processed), scope.processed)
      ensures Later(old(State()), State())
      ensures fetches - old(fetches) == scope.fetched - old(scope.fetched)
      decreases MAX_DEPTH - depth, 0, 1
    {
      LaterReflexive(State());
      var answer := Request(scope, uri);
      if answer.Err? {
        return Err(answer.error);
      }
      r := Reprocess(scope, depth, uri, answer.value, now);
    }

    ghost method Note(scope: Scope, uri: string)
      requires Valid() && scope.Valid() && uri in scope.visited && uri !in scope.processed && uri != scope.root && uri != ""
      modifies scope`processed
      ensures Valid() && scope.Valid() && SceneOf(scope) == old(SceneOf(scope)).(processed := old(scope.processed) + [uri])
    {
      DistinctGrows(scope.processed, uri);
      scope.processed := scope.processed + [uri];
    }

    /** Asks the host of a record for it. */
    method Request(scope: Scope, uri: string) returns (answer: Result<Fetched>)
      requires Valid() && scope.Valid() && env.fetcher.Some?
      modifies `fetches, scope`fetched
      ensures (SceneOf(scope), answer) == Asked(env, old(SceneOf(scope)), uri)
      ensures Valid() && scope.Valid()
    {
      if scope.fetched >= MAX_FETCHED {
        return Err("dependency fetch limit exceeded");
      }
      scope.fetched := scope.fetched + 1;
      fetches := fetches + 1;
      answer := Fetch(env, fetches, uri);
      if answer.Ok? && !Supported(answer.value.collection) {
        return Err("unsupported dependency collection");
      }
    }

    /** Hands a record to the processor for a URI it has not been handed one for. */
    method Reprocess(scope: Scope, depth: nat, uri: string, record: Fetched, now: int) returns (r: Result<bool>)
      requires Valid() && scope.Valid() && depth < MAX_DEPTH
      requires uri in scope.visited && uri !in scope.processed && uri != scope.root && uri != ""
      modifies this, db, scope
      ensures SceneOf(scope) == Reprocessed(env, old(SceneOf(scope)), depth, uri, record, now)
      ensures Valid() && scope.Valid() && old(scope.visited) <= scope.visited && old(scope.fetched) <= scope.fetched
      ensures Added(old(scope.visited) - {uri}, old(scope.processed), scope.processed)
      ensures Later(old(State()), State())
      ensures fetches - old(fetches) == scope.fetched - old(scope.fetched)
      decreases MAX_DEPTH - depth, 0, 0
    {
      ghost var visited, before := scope.visited, scope.processed;
      Note(scope, uri);
      var ok := Process(scope, depth + 1, record, now);
      assert Added(visited - {uri}, before, scope.processed) by { AddedAfter(visited, before, uri, scope.processed); }
      return if ok then Ok(true) else Err("dependency processing failed");
    }

    // -------------------------------------------------------------- roots

    /**
     Processes a record on its own behalf. `asked` lists the URIs for which it had another record
     processed: each once, never its own.
     */
    method ProcessRecord(record: Fetched, now: int) returns (ok: bool, ghost asked: seq<string>)
      requires Valid()
      modifies this, db
      ensures Valid() && Later(old(State()), State())
      ensures ok <==> Duplicate(old(db.rows), record.uri, record.cid) || MappedRecord(env, record).Some?
      ensures Duplicate(old(db.rows), record.uri, record.cid) || !ok ==> State() == old(State()) && asked == []
      ensures Alone(State(), fetches, asked, Processed(env, old(Entering(State(), fetches, record.uri)), 0, record, now))
      ensures Distinct(asked) && Trim(record.uri) !in asked
      ensures fetches - old(fetches) <= MAX_FETCHED
    {
      var scope := new Scope(Trim(record.uri));
      ok := Process(scope, 0, record, now);
      asked := scope.processed;
    }

    /** A deletion resolves each record it refers to in a scope of its own. */
    method HydrateAlone(content: Content, now: int)
      requires Valid()
      modifies this, db
      ensures Valid() && Later(old(State()), State())
      ensures SiteNow() == HydratedAlone(env, old(SiteNow()), content, now)
    {
      LaterReflexive(State());
      if env.fetcher.None? {
        return;
      }
      var uris := Dependencies(content);
      for i := 0 to |uris|
        invariant Valid() && Later(old(State()), State())
        invariant SiteNow() == EnsuredAlone(env, old(SiteNow()), uris, i, now)
      {
        EnsureAlone(uris[i], now, old(State()));
      }
    }

    /** Makes one record available with a scope of its own. */
    method EnsureAlone(uri: string, now: int, ghost start: World)
      requires Valid() && env.fetcher.Some? && Later(start, State())
      modifies this, db
      ensures Valid() && Later(start, State())
      ensures SiteNow() == var sc := Ensured(env, Entering(old(State()), old(fetches), ""), 0, uri, now); Site(sc.w, sc.fetches)
    {
      ghost var before := State();
      var scope := new Scope("");
      assert SceneOf(scope) == Entering(State(), fetches, "");
      var _ := EnsureRecord(scope, 0, uri, now);
      LaterTransitive(start, before, State());
    }

    method MapDeletion(did: string, collection: Collection, json: string, now: int) returns (mapped: MappedMessage?)
      requires Valid()
      modifies this, db
      ensures Valid() && Later(old(State()), State())
      ensures mapped == null <==> MapDelete(env.codec, collection, did, json).None?
      ensures mapped == null ==> SiteNow() == old(SiteNow())
      ensures mapped != null ==>
        && fresh(mapped)
        && var first := Resolved(env, old(db.rows), MapDelete(env.codec, collection, did, json).value);
          SiteNow() == HydratedAlone(env, old(SiteNow()), first, now) && mapped.fields == Resolved(env, db.rows, first)
    {
      LaterReflexive(State());
      var content := MapDelete(env.codec, collection, did, json);
      if content.None? {
        return null;
      }
      mapped := new MappedMessage(content.value);
      mapped.ReplaceATProtoRefs(UriLookup(db.rows), env.feeds);
      HydrateAlone(mapped.fields, now);
      mapped.ReplaceATProtoRefs(UriLookup(db.rows), env.feeds);
    }

    /** Stores a row that needs no lifecycle. */
    method Store(message: Message, ghost version: Version, now: int)
      requires Valid() && RowOk(message) && version == Rewrite(message.uri)
      modifies `handled, db
      ensures Valid() && Onward(old(State()), State())
      ensures !message.state.PublishedState? ==> Later(old(State()), State())
      ensures State() == World(Upsert(old(db.rows), message, now), sent, old(handled) + [version])
    {
      LaterReflexive(State());
      assert !message.state.PublishedState? ==> Answered(db.rows, Upsert(db.rows, message, now), []) by {
        if !message.state.PublishedState? {
          WriteIsAnswered(db.rows, message, now, []);
        }
      }
      UpsertKeepsRowsOk(db.rows, message, now);
      KeptByWrite(db.rows, db.rows, [], message, now, version);
      assert (handled + [version])[|handled|..] == [] + [version];
      db.AddMessage(message, now);
      handled := handled + [version];
    }

    /**
     Processes the deletion of a record: the row is marked deleted, or, for a record whose effect can be
     undone, the message that undoes it goes through the lifecycle.
     */
    method ProcessDeletedRecord(did: string, uri: string, cid: string, collection: Collection, json: string, seqNo: int, now: int)
      returns (ok: bool)
      requires Valid()
      modifies this, db
      ensures Valid() && Later(old(State()), State())
      ensures var event := RecordEvent(true, Fetched(did, uri, cid, collection, json), seqNo);
        var row := RowOfDeletion(old(db.rows), event, now);
        && SiteNow() == DeletionHandled(env, old(SiteNow()), event, now)
        && (ok <==> OnlyMarked(row) || MapDelete(env.codec, collection, did, row.rawAt).Some?)
    {
      var row := DeletedRow(Get(db.rows, uri), did, uri, cid, collection, json, seqNo, now);
      if OnlyMarked(row) {
        Store(row, Rewrite(uri), now);
        return true;
      }
      ok := Undo(row, now);
    }

    /** Takes the message that undoes a deleted record through the lifecycle, if there is one. */
    method Undo(row: Message, now: int) returns (ok: bool)
      requires Valid() && row.ref == ""
      modifies this, db
      ensures Valid() && Later(old(State()), State())
      ensures ok <==> MapDelete(env.codec, row.collection, row.did, row.rawAt).Some?
      ensures !ok ==> SiteNow() == old(SiteNow())
      ensures ok ==>
        var first := Resolved(env, old(db.rows), MapDelete(env.codec, row.collection, row.did, row.rawAt).value);
        var mid := HydratedAlone(env, old(SiteNow()), first, now);
        SiteNow() == Undone(env, mid, row, Resolved(env, mid.w.rows, first), now)
    {
      var mapped := MapDeletion(row.did, row.collection, row.rawAt, now);
      if mapped == null {
        return false;
      }
      FinishUndoing(row, mapped, old(State()), now);
      return true;
    }

    method FinishUndoing(row: Message, mapped: MappedMessage, ghost start: World, now: int)
      requires Valid() && row.ref == "" && WorldOk(start) && Later(start, State())
      modifies `sent, `handled, db, mapped
      ensures SiteNow() == Undone(env, old(SiteNow()), row, old(mapped.fields), now)
      ensures Valid() && Later(start, State())
    {
      var undoing := row.(payload := Some(mapped.fields));
      FinishingKeepsOk(env, start, State(), undoing, mapped.fields, None, Rewrite(row.uri), now);
      var _ := Finish(undoing, mapped, None, Rewrite(row.uri), now);
    }

    /** Attempts a deferred message again, from its stored record; returns the state it reached. */
    method ResolveDeferredMessage(candidate: Message, now: int) returns (state: Messages.State, ghost mid: World)
      requires Valid()
      modifies this, db
      ensures Attempt(SiteNow(), mid, state) == Again(env, old(SiteNow()), candidate, now)
      ensures Valid() && Later(old(State()), State())
    {
      var scope := new Scope(Trim(candidate.uri));
      ghost var entering := SceneOf(scope);
      assert entering == Entering(entering.w, entering.fetches, candidate.uri);
      var mapped := MapResolved(scope, 0, candidate.did, candidate.collection, candidate.rawAt, candidate.deletedAt.Some?, now);
      mid := State();
      ghost var sc := SceneOf(scope);
      if mapped == null {
        return FailedState, mid;
      }
      assert sc == Hydrated(env, entering, 0, MappedAgain(env, candidate).value, now);
      assert mapped.fields == ResolvedAgain(env, entering.w.rows, mid.rows, candidate);
      state := FinishAgain(candidate, mapped, now, old(State()));
    }

    /** Takes the message of a deferred candidate through its lifecycle once more and stores it. */
    method FinishAgain(candidate: Message, mapped: MappedMessage, now: int, ghost start: World) returns (state: Messages.State)
      requires Valid() && WorldOk(start) && Later(start, State())
      modifies `sent, `handled, db, mapped
      ensures Valid() && Later(start, State())
      ensures Attempt(SiteNow(), old(State()), state) == AgainDone(env, old(SiteNow()), candidate, old(mapped.fields), now)
    {
      var row := DeferredRow(candidate, mapped.fields, now);
      FinishingKeepsOk(env, start, State(), row, mapped.fields, BlobErrorOf(env, candidate), Rewrite(candidate.uri), now);
      state := Finish(row, mapped, BlobErrorOf(env, candidate), Rewrite(candidate.uri), now);
    }

    /** Handles a record event of the indexer. */
    method HandleRecordEvent(event: RecordEvent, now: int) returns (ok: bool)
      requires Valid()
      modifies this, db
      ensures Valid() && Later(old(State()), State())
      ensures SiteNow() == EventHandled(env, old(SiteNow()), event, now)
      ensures !event.deletion && Duplicate(old(db.rows), event.record.uri, event.record.cid) ==> ok && State() == old(State())
    {
      var record := event.record;
      if event.deletion {
        ok := ProcessDeletedRecord(record.did, record.uri, record.cid, record.collection, record.json, event.seqNo, now);
        return;
      }
      var done, _ := ProcessRecord(record, now);
      return done;
    }

    /** Handles record events in turn; `sites` are those before each and after the last. */
    method HandleRecordEvents(events: seq<RecordEvent>, now: int) returns (ghost sites: seq<Site>)
      requires Valid()
      modifies this, db
      ensures Valid() && EventsHandled(env, sites, events, now) && sites[0] == old(SiteNow()) && sites[|events|] == SiteNow()
      ensures Handles(WorldsOf(sites), events)
    {
      sites := [SiteNow()];
      NoEventsYet(env, SiteNow(), events, now);
      for i := 0 to |events|
        invariant Valid() && HandledSoFar(env, sites, events, i, now)
        invariant sites[0] == old(SiteNow()) && sites[i] == SiteNow()
      {
        ghost var before := sites;
        var _ := HandleRecordEvent(events[i], now);
        sites := before + [SiteNow()];
        OneMoreHandled(env, before, events, i, SiteNow(), now);
      }
      assert events[..|events|] == events;
    }

    /** Gives up on deferred messages that waited too long. */
    method ExpireDeferredMessages(candidates: seq<Message>, now: int) returns (expired: nat)
      requires Valid() && forall c <- candidates :: c.state.DeferredState? && RowOk(c)
      modifies `handled, db
      ensures Valid() && Later(old(State()), State())
      ensures expired == |candidates| && sent == old(sent)
      ensures forall c <- candidates :: c.uri in db.rows && db.rows[c.uri].state.FailedState?
      ensures db.rows == ExpiredAll(old(db.rows), candidates, |candidates|, now)
    {
      LaterReflexive(State());
      expired := 0;
      for i := 0 to |candidates|
        invariant Valid() && Later(old(State()), State())
        invariant expired == i && sent == old(sent)
        invariant db.rows == ExpiredAll(old(db.rows), candidates, i, now)
      {
        ghost var before := State();
        assert candidates[i] in candidates;
        var update := Expired(candidates[i]);
        Store(update, Rewrite(update.uri), now);
        LaterTransitive(old(State()), before, State());
        expired := expired + 1;
      }
      GivenUpAreFailed(old(db.rows), candidates, |candidates|, now);
    }
  }

  // ---------------------------------------------------------------- whose row it is

  /** The row is that of a record: its identifiers, its account, its type and its JSON. */
  predicate IsRowFor(row: Message, record: Fetched) {
    row.uri == record.uri && row.cid == record.cid && row.did == record.did && row.collection == record.collection && row.rawAt == record.json
  }

  /** Handling a record leaves its row under its URI, with the thread its message belongs to. */
  lemma RecordRowIs(env: Env, mid: World, record: Fetched, content: Content, now: int)
    ensures var rows := RecordFinished(env, mid, record, content, now).rows;
      && record.uri in rows && IsRowFor(rows[record.uri], record)
      && rows[record.uri].root == TextOf(content, ReplyRootRef) && rows[record.uri].parent == TextOf(content, ReplyParentRef)
  {
    DecisionIsFor(env, NewRow(record, content), content, env.blobs(record.uri), |mid.sent|, now);
  }

  /** Two rows of the same record, in the same thread. */
  predicate SameRecord(a: Message, b: Message) {
    a.uri == b.uri && a.cid == b.cid && a.did == b.did && a.collection == b.collection && a.rawAt == b.rawAt && a.root == b.root && a.parent == b.parent
  }

  lemma DispatchIsFor(env: Env, msg: Message, content: Content, blobError: Option<string>, n: nat, now: int)
    requires env.publisher.Some?
    ensures SameRecord(Dispatch(env, msg, content, blobError, n, now).msg, msg)
  {
  }

  lemma DecisionIsFor(env: Env, msg: Message, content: Content, blobError: Option<string>, n: nat, now: int)
    ensures SameRecord(Decide(env, msg, content, blobError, n, now).msg, msg)
  {
    if Sends(env, content) {
      DispatchIsFor(env, msg, Sanitized(content), blobError, n, now);
    }
  }

  // ---------------------------------------------------------------- record events, one after the other

  /** The first events, handled one after the other. */
  ghost predicate HandledSoFar(env: Env, sites: seq<Site>, events: seq<RecordEvent>, i: nat, now: int) {
    i <= |events| && EventsHandled(env, sites, events[..i], now) && Handles(WorldsOf(sites), events[..i])
  }

  lemma NoEventsYet(env: Env, site: Site, events: seq<RecordEvent>, now: int)
    ensures HandledSoFar(env, [site], events, 0, now)
  {
  }

  lemma OneMoreHandled(env: Env, sites: seq<Site>, events: seq<RecordEvent>, i: nat, after: Site, now: int)
    requires i < |events| && HandledSoFar(env, sites, events, i, now)
    requires after == EventHandled(env, sites[i], events[i], now) && HandlesOne(sites[i].w, events[i], after.w)
    ensures HandledSoFar(env, sites + [after], events, i + 1, now)
  {
    FirstAndNext(events, i);
    assert EventsHandled(env, sites + [after], events[..i + 1], now) by {
      EventsOneMore(env, sites, events[..i], events[i], after, now);
    }
    assert Handles(WorldsOf(sites + [after]), events[..i + 1]) by {
      WorldsOneMore(sites, events[..i], events[i], after, events[..i + 1]);
    }
  }

  lemma FirstAndNext<T>(s: seq<T>, i: nat)
    requires i < |s|
    ensures s[..i + 1] == s[..i] + [s[i]]
  {
  }

  lemma WorldsOneMore(sites: seq<Site>, events: seq<RecordEvent>, event: RecordEvent, after: Site, all: seq<RecordEvent>)
    requires Handles(WorldsOf(sites), events) && |sites| == |events| + 1 && all == events + [event]
    requires HandlesOne(sites[|events|].w, event, after.w)
    ensures Handles(WorldsOf(sites + [after]), all)
  {
    assert WorldsOf(sites + [after]) == WorldsOf(sites) + [after.w];
    HandlesOneMore(WorldsOf(sites), events, event, after.w, WorldsOf(sites + [after]), all);
  }

  lemma EventsOneMore(env: Env, sites: seq<Site>, events: seq<RecordEvent>, event: RecordEvent, after: Site, now: int)
    requires EventsHandled(env, sites, events, now) && IsHandled(env, sites[|events|], event, after, now)
    ensures EventsHandled(env, sites + [after], events + [event], now)
  {
  }

  /** What handling one event promises. */
  ghost predicate HandlesOne(before: World, event: RecordEvent, after: World) {
    && Later(before, after)
    && (!event.deletion && Duplicate(before.rows, event.record.uri, event.record.cid) ==> after == before)
  }

  ghost predicate Handles(worlds: seq<World>, events: seq<RecordEvent>) {
    && |worlds| == |events| + 1
    && forall i :: 0 <= i < |events| ==> HandlesOne(worlds[i], events[i], worlds[i + 1])
  }

  lemma HandlesOneMore(worlds: seq<World>, events: seq<RecordEvent>, event: RecordEvent, after: World,
                       allWorlds: seq<World>, allEvents: seq<RecordEvent>)
    requires Handles(worlds, events) && HandlesOne(worlds[|events|], event, after)
    requires allWorlds == worlds + [after] && allEvents == events + [event]
    ensures Handles(allWorlds, allEvents)
  {
  }

  lemma {:induction false} LaterAlong(worlds: seq<World>, events: seq<RecordEvent>, i: nat, j: nat)
    requires Handles(worlds, events) && i <= j <= |events|
    ensures Later(worlds[i], worlds[j])
    decreases j - i
  {
    if i == j {
      LaterReflexive(worlds[i]);
    } else {
      LaterAlong(worlds, events, i, j - 1);
      assert HandlesOne(worlds[j - 1], events[j - 1], worlds[j]);
      LaterTransitive(worlds[i], worlds[j - 1], worlds[j]);
    }
  }

  /**
   However many record events are handled, and whatever else they make the bridge process, a record that was
   bridged at the start keeps its row, and each event that brings the same version of it changes nothing and
   sends nothing, as long as no other version of it, no deletion and no retry is written.
   */
  lemma EchoesDoNothing(worlds: seq<World>, events: seq<RecordEvent>, uri: string, cid: string, i: nat)
    requires Handles(worlds, events) && RowsOk(worlds[0].rows) && Duplicate(worlds[0].rows, uri, cid)
    requires |worlds[0].handled| <= |worlds[|events|].handled|
    requires Untouched(worlds[0].rows[uri], worlds[|events|].handled[|worlds[0].handled|..])
    requires i < |events|
    ensures uri in worlds[i].rows && worlds[i].rows[uri] == worlds[0].rows[uri]
    ensures !events[i].deletion && events[i].record.uri == uri && Trim(events[i].record.cid) == Trim(cid) ==> worlds[i + 1] == worlds[i]
  {
    LaterAlong(worlds, events, 0, i);
    LaterAlong(worlds, events, i, |events|);
    assert Bridged(worlds[0].rows[uri]);
    UntouchedSoFar(worlds[0], worlds[i], worlds[|events|], worlds[0].rows[uri]);
    assert HandlesOne(worlds[i], events[i], worlds[i + 1]);
  }

  /**
   Over any run of record events, whatever else they make the bridge process, a row that is published has the
   reference which the last successful call for its record gave; without such a call it had it from the start.
   */
  lemma PublishedRefIsAnswer(worlds: seq<World>, events: seq<RecordEvent>, uri: string)
    requires Handles(worlds, events) && uri in worlds[|events|].rows && worlds[|events|].rows[uri].state.PublishedState?
    ensures |worlds[0].sent| <= |worlds[|events|].sent|
    ensures var calls, row := worlds[|events|].sent[|worlds[0].sent|..], worlds[|events|].rows[uri];
      if LastAnswer(calls, uri).Some? then LastAnswer(calls, uri) == Some(row.ref)
      else uri in worlds[0].rows && worlds[0].rows[uri].state.PublishedState? && worlds[0].rows[uri].ref == row.ref
  {
    LaterAlong(worlds, events, 0, |events|);
    assert AnsweredAt(worlds[0].rows, worlds[|events|].rows, worlds[|events|].sent[|worlds[0].sent|..], uri);
  }

  lemma UntouchedSoFar(a: World, b: World, c: World, row: Message)
    requires a.handled <= b.handled <= c.handled && Untouched(row, c.handled[|a.handled|..])
    ensures Untouched(row, b.handled[|a.handled|..])
  {
    assert c.handled[|a.handled|..] == b.handled[|a.handled|..] + c.handled[|b.handled|..];
    UntouchedParts(row, b.handled[|a.handled|..], c.handled[|b.handled|..]);
  }

  // ---------------------------------------------------------------- rows of deletions and deferrals

  const DELETE_MARK := "\"op\":\"delete\""

  /** The row of a deletion, with what the row before it and the event say about the record. */
  function DeletedRow(existing: Option<Message>, did: string, uri: string, cid: string, collection: Collection, json: string,
                      seqNo: int, now: int): Message
  {
    var lastCid :=
      if !Blank(cid) then cid
      else if existing.Some? && !Blank(existing.value.cid) then existing.value.cid
      else "deleted-seq-" + Decimal(seqNo);
    var noted := "{\"op\":\"delete\",\"at_uri\":\"" + uri + "\",\"seq\":" + Decimal(seqNo) + "}";
    var kept := if existing.Some? && !Blank(existing.value.rawAt) then existing.value.rawAt else noted;
    var rawAt := if json != "" then json else kept;
    var payload := if existing.Some? then existing.value.payload else None;
    Message(uri, lastCid, "", did, collection, DeletedState, rawAt, payload, None, "", 0, None, "", 0, None,
      Some(now), Some(seqNo), "atproto_delete seq=" + Decimal(seqNo), "", "", None)
  }

  /** Posts and profiles cannot be undone, nor can a record whose content is not known. */
  predicate OnlyMarked(row: Message) {
    row.collection.ProfileType? || row.collection.PostType? || Blank(row.rawAt) || IndexFrom(row.rawAt, DELETE_MARK, 0).Some?
  }

  function DeferredRow(candidate: Message, content: Content, now: int): Message {
    Message(candidate.uri, candidate.cid, "", candidate.did, candidate.collection, DeferredState, candidate.rawAt, Some(content),
      None, "", 0, None, "", 1, Some(now), candidate.deletedAt, candidate.deletedSeq, candidate.deletedReason, "", "", None)
  }

  function BlobErrorOf(env: Env, candidate: Message): Option<string> {
    if candidate.deletedAt.None? then env.blobs(candidate.uri) else None
  }
}
