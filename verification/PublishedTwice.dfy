/**
 A batch of which one candidate is published twice in one pass: a reply `x` whose parent `y` is deferred too
 and whose root is nowhere to be found, and then `y`, which replies to a post that was bridged meanwhile.
 Attempting `x` makes its parent available and so publishes it; the attempt at `y` does not look at its row.

 The module proves that the query gives the batch so, and that the pass sends `y` twice.
 */
module PublishedTwice {
  import opened Wrappers
  import opened Text
  import opened RichText
  import opened Mapper
  import opened DeferReason
  import opened Messages
  import opened Lifecycle
  import opened Processor
  import opened DeferredQuery
  import opened DeferredCascade
  import opened LateReferences
  import opened DeferredPass
  import opened LateParent
  import opened Republishing

  /** The URIs of the two replies, of the post that `y` replies to, and of the root of `x`. */
  datatype Names = Names(x: string, y: string, p: string, r: string)

  predicate WellChosen(t: Names) {
    && Spelled(t.x) && Spelled(t.y) && Spelled(t.p) && Spelled(t.r)
    && Trim(t.x) == t.x && Trim(t.y) == t.y && Trim(t.r) == t.r
    && t.x != t.y && t.x != t.p && t.x != t.r && t.y != t.p && t.y != t.r && t.p != t.r
  }

  function CodecFor(t: Names): Codec {
    Codec(
      (json: string) => if json == t.x then Some(ReplyPost(t.r, t.y)) else if json == t.y then Some(ReplyPost(t.p, t.p)) else None,
      json => None, json => None, json => None, json => None, json => None, json => None, json => None, json => None)
  }

  /** A resolver is configured, though its host has nothing; the publisher never fails. */
  function EnvFor(t: Names): Env {
    Env(CodecFor(t), Some((n: nat, did: string, content: Content) => Ok("%m")), Some((n: nat, uri: string) => Err("not found")),
      did => "", uri => None)
  }

  function Child(t: Names): Message {
    DeferredPost(t.x, t.r, t.y, 1)
  }

  function Parent(t: Names): Message {
    DeferredPost(t.y, t.p, t.p, 2)
  }

  function Pair(t: Names): seq<Message> {
    [Child(t), Parent(t)]
  }

  function RowsFor(t: Names): Rows {
    map[t.x := Child(t), t.y := Parent(t), t.p := DeferredPost(t.p, "", "", 0).(state := PublishedState, ref := "%p", deferReason := "")]
  }

  function SiteFor(t: Names): Site {
    Site(World(RowsFor(t), [], []), 0)
  }

  lemma RowFacts(t: Names)
    requires WellChosen(t)
    ensures RefOf(RowsFor(t), t.y) == "" && RefOf(RowsFor(t), t.r) == "" && RefOf(RowsFor(t), t.p) == "%p"
    ensures RowsFor(t)[t.x] == Child(t) && RowsFor(t)[t.y] == Parent(t)
  {
    assert Trim("%p") == "%p" && Trim("") == "";
  }

  // ---------------------------------------------------------------- the query

  lemma TwoSelected(rows: Rows, x: Message, y: Message)
    requires DeferredIn(rows, x) && DeferredIn(rows, y) && x != y && MayPrecede(rows, x, y)
    requires forall uri <- rows :: rows[uri].state.DeferredState? ==> rows[uri] in [x, y]
    ensures Selected(rows, 2, [x, y])
  {
  }

  lemma PairIsThere(t: Names)
    requires WellChosen(t)
    ensures DeferredIn(RowsFor(t), Child(t)) && DeferredIn(RowsFor(t), Parent(t))
    ensures forall uri <- RowsFor(t) :: RowsFor(t)[uri].state.DeferredState? ==> RowsFor(t)[uri] in [Child(t), Parent(t)]
  {
    assert [Child(t), Parent(t)][0] == Child(t) && [Child(t), Parent(t)][1] == Parent(t);
  }

  lemma NeitherWaitsForDeferred(t: Names)
    requires WellChosen(t)
    ensures !WaitsForDeferred(RowsFor(t), Child(t)) && !WaitsForDeferred(RowsFor(t), Parent(t))
  {
    FirstOfReason(t.r, t.y);
    FirstOfReason(t.p, t.p);
  }

  /** Neither reply names a deferred record first, and `x` was attempted before `y`. */
  lemma PairIsSelected(t: Names)
    requires WellChosen(t)
    ensures Selected(RowsFor(t), 2, Pair(t))
  {
    PairIsThere(t);
    assert MayPrecede(RowsFor(t), Child(t), Parent(t)) by {
      NeitherWaitsForDeferred(t);
      assert Since(Child(t)) == 1 && Since(Parent(t)) == 2;
    }
    TwoSelected(RowsFor(t), Child(t), Parent(t));
  }

  // ---------------------------------------------------------------- the parent, resolved

  lemma NothingPendingNothingAsked(content: Content)
    requires forall field <- content :: !Bookkeeping(field)
    ensures Dependencies(content) == []
  {
  }

  /** With the post it replies to bridged, the parent refers to nothing more, and can be sent. */
  lemma ParentResolves(t: Names, rows: Rows)
    requires WellChosen(t) && RefOf(rows, t.p) != ""
    ensures MappedAgain(EnvFor(t), Parent(t)) == Some(MapPost(ReplyPost(t.p, t.p)))
    ensures Dependencies(Resolved(EnvFor(t), rows, MapPost(ReplyPost(t.p, t.p)))) == []
    ensures Publishable(EnvFor(t), rows, Parent(t))
  {
    var env, post := EnvFor(t), ReplyPost(t.p, t.p);
    assert env.codec.post(t.y) == Some(post);
    ReplyIsPublishable(env, rows, Parent(t), post);
    ReplyResolves(env, rows, post);
    NothingPendingNothingAsked(Resolved(env, rows, MapPost(post)));
  }

  lemma NothingToHydrate(env: Env, sc: Scene, depth: nat, content: Content, now: int)
    requires Dependencies(Resolved(env, sc.w.rows, content)) == [] && depth <= MAX_DEPTH
    ensures Hydrated(env, sc, depth, content, now) == sc
  {
  }

  lemma FinishedIsPublished(env: Env, w: World, record: Fetched, content: Content, now: int)
    requires Sends(env, content) && AlwaysAccepts(env)
    ensures var after := RecordFinished(env, w, record, content, now);
      record.uri in after.rows && after.rows[record.uri].state.PublishedState?
      && (forall uri :: uri != record.uri ==> Get(after.rows, uri) == Get(w.rows, uri))
  {
    assert Publish(env, |w.sent|, record.did, Sanitized(content)).Ok?;
    DecidedState(env, NewRow(record, content), content, env.blobs(record.uri), |w.sent|, now);
  }

  lemma ParentIsProcessed(t: Names, sc: Scene, now: int)
    requires WellChosen(t) && RefOf(sc.w.rows, t.p) != "" && t.y in sc.w.rows && sc.w.rows[t.y] == Parent(t)
    ensures var after := Processed(EnvFor(t), sc, 1, RecordOf(Parent(t)), now);
      t.y in after.w.rows && after.w.rows[t.y].state.PublishedState?
      && (forall uri :: uri != t.y ==> Get(after.w.rows, uri) == Get(sc.w.rows, uri))
  {
    var env, record, mapped := EnvFor(t), RecordOf(Parent(t)), MapPost(ReplyPost(t.p, t.p));
    ParentResolves(t, sc.w.rows);
    assert MappedRecord(env, record) == Some(mapped);
    assert !Duplicate(sc.w.rows, record.uri, record.cid) by { assert Blank(""); }
    NothingToHydrate(env, sc, 1, mapped, now);
    var content := Resolved(env, sc.w.rows, Resolved(env, sc.w.rows, mapped));
    assert Processed(env, sc, 1, record, now) == sc.(w := RecordFinished(env, sc.w, record, content, now));
    FinishedIsPublished(env, sc.w, record, content, now);
  }

  // ---------------------------------------------------------------- the attempt at the child

  /** The child's references are still there after a first look, and nothing else is. */
  lemma ChildWaits(t: Names, rows: Rows)
    requires WellChosen(t) && RefOf(rows, t.r) == "" && RefOf(rows, t.y) == ""
    ensures MappedAgain(EnvFor(t), Child(t)) == Some(MapPost(ReplyPost(t.r, t.y)))
    ensures Dependencies(Resolved(EnvFor(t), rows, MapPost(ReplyPost(t.r, t.y)))) == [t.r, t.y]
  {
    ChildIsMapped(t);
    RepliesHaveRefs(t.r, t.y);
    RefsStay(EnvFor(t), rows, MapPost(ReplyPost(t.r, t.y)), t.r, t.y);
  }

  lemma ChildIsMapped(t: Names)
    requires WellChosen(t)
    ensures MappedAgain(EnvFor(t), Child(t)) == Some(MapPost(ReplyPost(t.r, t.y)))
  {
    assert EnvFor(t).codec.post(t.x) == Some(ReplyPost(t.r, t.y));
  }

  lemma RepliesHaveRefs(root: string, parent: string)
    ensures var mapped := MapPost(ReplyPost(root, parent));
      && At(mapped, ReplyRootRef) == Some(Words(root)) && At(mapped, ReplyParentRef) == Some(Words(parent))
      && SubjectRef !in mapped && QuoteRef !in mapped
  {
    ReplyRefs(ReplyPost(root, parent));
  }

  lemma RefsStay(env: Env, rows: Rows, mapped: Content, root: string, parent: string)
    requires At(mapped, ReplyRootRef) == Some(Words(root)) && At(mapped, ReplyParentRef) == Some(Words(parent))
    requires SubjectRef !in mapped && QuoteRef !in mapped && RefOf(rows, root) == "" && RefOf(rows, parent) == ""
    requires Trim(root) == root && Trim(parent) == parent && root != "" && parent != ""
    ensures Dependencies(Resolved(env, rows, mapped)) == [root, parent]
  {
    var after := Resolved(env, rows, mapped);
    assert At(after, ReplyRootRef) == Some(Words(root)) by { StaysUnfound(mapped, UriLookup(rows), env.feeds, ReplyRootRef, root); }
    assert At(after, ReplyParentRef) == Some(Words(parent)) by { StaysUnfound(mapped, UriLookup(rows), env.feeds, ReplyParentRef, parent); }
    assert AddsNoRef(mapped, after) by { ReplacedAddsNoRef(mapped, UriLookup(rows), env.feeds); }
    NoOtherRefs(mapped, after);
    TwoAsked(after, root, parent);
  }

  lemma NoOtherRefs(mapped: Content, after: Content)
    requires AddsNoRef(mapped, after) && SubjectRef !in mapped && QuoteRef !in mapped
    ensures SubjectRef !in after && QuoteRef !in after
  {
  }

  lemma TwoAsked(content: Content, root: string, parent: string)
    requires At(content, ReplyRootRef) == Some(Words(root)) && At(content, ReplyParentRef) == Some(Words(parent))
    requires SubjectRef !in content && QuoteRef !in content
    requires Trim(root) == root && Trim(parent) == parent && root != "" && parent != ""
    ensures Dependencies(content) == [root, parent]
  {
  }

  lemma TwoInTurn(env: Env, sc: Scene, content: Content, first: string, second: string, now: int)
    requires env.fetcher.Some? && Dependencies(Resolved(env, sc.w.rows, content)) == [first, second]
    ensures Hydrated(env, sc, 0, content, now) == Ensured(env, Ensured(env, sc, 0, first, now), 0, second, now)
  {
    assert EnsuredAll(env, sc, 0, [first, second], 0, now) == sc;
    assert EnsuredAll(env, sc, 0, [first, second], 1, now) == Ensured(env, sc, 0, first, now);
  }

  /** Asking for the root brings nothing. */
  lemma RootIsNotFound(t: Names, sc: Scene, now: int)
    requires WellChosen(t) && t.r !in sc.w.rows && t.r !in sc.visited && sc.fetched < MAX_FETCHED
    ensures var after := Ensured(EnvFor(t), sc, 0, t.r, now); after.w == sc.w && after.visited == sc.visited + {t.r}
  {
  }

  /** Asking for the parent processes it from its row. */
  lemma ParentIsProvided(t: Names, sc: Scene, now: int)
    requires WellChosen(t) && t.y !in sc.visited && RefOf(sc.w.rows, t.p) != "" && t.y in sc.w.rows && sc.w.rows[t.y] == Parent(t)
    ensures var after := Ensured(EnvFor(t), sc, 0, t.y, now);
      t.y in after.w.rows && after.w.rows[t.y].state.PublishedState?
      && (forall uri :: uri != t.y ==> Get(after.w.rows, uri) == Get(sc.w.rows, uri))
  {
    assert Reprocessable(Parent(t)) && Blank(Parent(t).ref) by { assert Trim("") == ""; }
    var asked := sc.(visited := sc.visited + {t.y}, processed := sc.processed + [t.y]);
    assert Ensured(EnvFor(t), sc, 0, t.y, now) == Processed(EnvFor(t), asked, 1, RecordOf(Parent(t)), now);
    ParentIsProcessed(t, asked, now);
  }

  /** Making the child's references available publishes its parent. */
  lemma ChildHydratesParent(t: Names, now: int)
    requires WellChosen(t)
    ensures var sc := Hydrated(EnvFor(t), Entering(SiteFor(t).w, 0, t.x), 0, MapPost(ReplyPost(t.r, t.y)), now);
      && t.y in sc.w.rows && sc.w.rows[t.y].state.PublishedState?
      && (forall uri :: uri != t.y ==> Get(sc.w.rows, uri) == Get(RowsFor(t), uri))
  {
    var env, sc := EnvFor(t), Entering(SiteFor(t).w, 0, t.x);
    RowFacts(t);
    ChildWaits(t, RowsFor(t));
    TwoInTurn(env, sc, MapPost(ReplyPost(t.r, t.y)), t.r, t.y, now);
    BothAsked(t, sc, now);
  }

  lemma BothAsked(t: Names, sc: Scene, now: int)
    requires WellChosen(t) && sc.w.rows == RowsFor(t) && sc.visited == {t.x} && sc.fetched == 0
    ensures var after := Ensured(EnvFor(t), Ensured(EnvFor(t), sc, 0, t.r, now), 0, t.y, now);
      && t.y in after.w.rows && after.w.rows[t.y].state.PublishedState?
      && (forall uri :: uri != t.y ==> Get(after.w.rows, uri) == Get(RowsFor(t), uri))
  {
    RowFacts(t);
    RootIsNotFound(t, sc, now);
    ParentIsProvided(t, Ensured(EnvFor(t), sc, 0, t.r, now), now);
  }

  /** An attempt leaves every other row as making its dependencies available left it. */
  lemma OthersStay(env: Env, s: Site, candidate: Message, content: Content, now: int, uri: string)
    requires MappedAgain(env, candidate) == Some(content) && uri != candidate.uri
    ensures Get(Again(env, s, candidate, now).site.w.rows, uri)
         == Get(Hydrated(env, Entering(s.w, s.fetches, candidate.uri), 0, content, now).w.rows, uri)
  {
    var sc := Hydrated(env, Entering(s.w, s.fetches, candidate.uri), 0, content, now);
    OnlyOwnRow(env, Site(sc.w, sc.fetches), candidate, ResolvedAgain(env, s.w.rows, sc.w.rows, candidate), now, uri);
  }

  lemma OnlyOwnRow(env: Env, mid: Site, candidate: Message, content: Content, now: int, uri: string)
    requires uri != candidate.uri
    ensures Get(AgainDone(env, mid, candidate, content, now).site.w.rows, uri) == Get(mid.w.rows, uri)
  {
    DecidedCallUri(env, DeferredRow(candidate, content, now), content, BlobErrorOf(env, candidate), |mid.w.sent|, now);
  }

  lemma DecidedCallUri(env: Env, msg: Message, content: Content, blobError: Option<string>, n: nat, now: int)
    ensures Decide(env, msg, content, blobError, n, now).msg.uri == msg.uri
  {
  }

  /** The parent is published already, and what it replies to is still known. */
  predicate ParentIsThere(t: Names, rows: Rows) {
    t.y in rows && rows[t.y].state.PublishedState? && RefOf(rows, t.p) != ""
  }

  lemma AfterChild(t: Names, now: int)
    requires WellChosen(t)
    ensures ParentIsThere(t, Again(EnvFor(t), SiteFor(t), Child(t), now).site.w.rows)
  {
    var env, s, child, content := EnvFor(t), SiteFor(t), Child(t), MapPost(ReplyPost(t.r, t.y));
    assert MappedAgain(env, child) == Some(content) by {
      RowFacts(t);
      ChildWaits(t, RowsFor(t));
    }
    OthersStay(env, s, child, content, now, t.y);
    OthersStay(env, s, child, content, now, t.p);
    ThereAfterChild(t, now, Again(env, s, child, now).site.w.rows);
  }

  lemma ThereAfterChild(t: Names, now: int, rows: Rows)
    requires WellChosen(t)
    requires var between := Hydrated(EnvFor(t), Entering(SiteFor(t).w, 0, t.x), 0, MapPost(ReplyPost(t.r, t.y)), now).w.rows;
      Get(rows, t.y) == Get(between, t.y) && Get(rows, t.p) == Get(between, t.p)
    ensures ParentIsThere(t, rows)
  {
    ChildHydratesParent(t, now);
    RowFacts(t);
  }

  // ---------------------------------------------------------------- the pass

  /** The parent's own attempt finds nothing to make available, and can be sent. */
  lemma ParentCanBeSent(t: Names, s: Site, now: int)
    requires WellChosen(t) && RefOf(s.w.rows, t.p) != ""
    ensures CanBeSent(EnvFor(t), s, Again(EnvFor(t), s, Parent(t), now), Parent(t))
  {
    var mapped := MapPost(ReplyPost(t.p, t.p));
    ParentResolves(t, s.w.rows);
    NothingToHydrate(EnvFor(t), Entering(s.w, s.fetches, t.y), 0, mapped, now);
    assert Again(EnvFor(t), s, Parent(t), now).mid == s.w;
  }

  /** A pass over two candidates attempts the first one first. */
  lemma FirstComesFirst<S>(b: Batch<S>, s: S)
    requires Closed(b) && b.n == 2
    ensures WholePass(b, s).order == [0, 1]
  {
    var empty := Progress(s, [], []);
    FirstOfList(b, empty, All(2));
    assert DeferredCascade.Tried(b, empty, 0).order == [0];
    StartsWithFirst(WholePass(b, s).order, PassAt(b, empty, 0).order);
  }

  lemma StartsWithFirst(order: seq<int>, first: seq<int>)
    requires [0] <= first <= order && Listed(order, 2) && |order| == 2
    ensures order == [0, 1]
  {
    assert order[0] == first[0] == [0][0];
    assert InRange(order, 2) && order[0] != order[1];
  }

  lemma ChildComesFirst(t: Names, now: int)
    ensures PassOf(EnvFor(t), Pair(t), SiteFor(t), now).order == [0, 1]
  {
    BatchIsClosed(EnvFor(t), Pair(t), now);
    FirstComesFirst(BatchOf(EnvFor(t), Pair(t), now), SiteFor(t));
  }

  lemma BeforeParent(t: Names, now: int)
    ensures Before(EnvFor(t), Pair(t), SiteFor(t), now, 1) == Again(EnvFor(t), SiteFor(t), Child(t), now).site
  {
    ChildComesFirst(t, now);
    assert [0, 1][..1] == [0] && [0][..0] == [];
    var b := BatchOf(EnvFor(t), Pair(t), now);
    assert Ran(b, SiteFor(t), []) == SiteFor(t);
    assert Ran(b, SiteFor(t), [0]) == b.attempt(SiteFor(t), 0).0;
  }

  lemma PassIsOrdinary(t: Names)
    requires WellChosen(t)
    ensures PublisherOk(EnvFor(t)) && AnswersAsAsked(EnvFor(t)) && DistinctUris(Pair(t)) && Republishing.Waiting(RowsFor(t), Pair(t))
  {
    HostsAreOrdinary(t);
    assert Pair(t)[0].uri == t.x && Pair(t)[1].uri == t.y;
    PairWaits(t, RowsFor(t), Pair(t));
  }

  lemma HostsAreOrdinary(t: Names)
    ensures PublisherOk(EnvFor(t)) && AnswersAsAsked(EnvFor(t))
  {
    assert PublisherOk(EnvFor(t)) by { assert Trim("%m") == "%m"; }
  }

  lemma PairWaits(t: Names, rows: Rows, pair: seq<Message>)
    requires WellChosen(t) && rows == RowsFor(t) && pair == [Child(t), Parent(t)]
    ensures Republishing.Waiting(rows, pair)
  {
    RowFacts(t);
    assert Keyed(rows);
  }

  /** The query gives the batch so, and the pass over it sends the parent twice. */
  lemma ParentIsSentTwice(t: Names, now: int)
    requires WellChosen(t)
    ensures Selected(RowsFor(t), 2, Pair(t)) && SiteFor(t).w.sent == []
    ensures PublisherOk(EnvFor(t)) && AnswersAsAsked(EnvFor(t))
    ensures SendsOf(PassOf(EnvFor(t), Pair(t), SiteFor(t), now).site.w.sent, t.y) == 2
  {
    PairIsSelected(t);
    PassIsOrdinary(t);
    ChildComesFirst(t, now);
    var s := Before(EnvFor(t), Pair(t), SiteFor(t), now, 1);
    assert ParentIsThere(t, s.w.rows) by {
      AfterChild(t, now);
      BeforeParent(t, now);
    }
    ParentCanBeSent(t, s, now);
    SentAtMostTwice(EnvFor(t), Pair(t), SiteFor(t), now, 1);
  }

  /** There are such names. */
  lemma NamesExist()
    ensures WellChosen(Names("at://x", "at://y", "at://p", "at://r"))
  {
    assert TrimLeft("at://x") == "at://x" && TrimRight("at://x") == "at://x";
    assert TrimLeft("at://y") == "at://y" && TrimRight("at://y") == "at://y";
    assert TrimLeft("at://p") == "at://p" && TrimRight("at://p") == "at://p";
    assert TrimLeft("at://r") == "at://r" && TrimRight("at://r") == "at://r";
    assert "at://x"[5] == 'x' && "at://y"[5] == 'y' && "at://p"[5] == 'p' && "at://r"[5] == 'r';
  }
}
