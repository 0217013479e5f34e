/**
 How often one pass over the deferred messages sends a candidate to the publisher.

 The module proves that without a resolver every candidate is sent at most once; and that with one that
 answers with the records it was asked for, a candidate is sent at most twice.
 */
module Republishing {
  import opened Wrappers
  import opened Text
  import opened Mapper
  import opened Messages
  import opened Lifecycle
  import opened Processor
  import opened DeferredCascade
  import opened DeferredPass

  function SendsOf(sent: seq<Sent>, uri: string): nat {
    if sent == [] then 0 else SendsOf(sent[..|sent| - 1], uri) + if sent[|sent| - 1].uri == uri then 1 else 0
  }

  lemma SendsOneMore(sent: seq<Sent>, more: Sent, uri: string)
    ensures SendsOf(sent + [more], uri) == SendsOf(sent, uri) + if more.uri == uri then 1 else 0
  {
    assert (sent + [more])[..|sent|] == sent;
  }

  /** What a fetch brings is the record that was asked for. */
  ghost predicate AnswersAsAsked(env: Env) {
    env.fetcher.Some? ==> forall n, uri :: Fetch(env, n, uri).Ok? ==> Fetch(env, n, uri).value.uri == uri
  }

  // ---------------------------------------------------------------- what a row says of the calls for it

  /** The row came of a call to the publisher. */
  predicate Called(row: Message) {
    row.state.PublishedState? || row.state.FailedState?
  }

  /** So many calls for a record were made before its row says anything, and one more if it came of a call. */
  predicate Says(w: World, base: nat, uri: string) {
    && uri in w.rows
    && SendsOf(w.sent, uri) == base + (if Called(w.rows[uri]) then 1 else 0)
    && (w.rows[uri].state.PublishedState? ==> !Blank(w.rows[uri].ref))
  }

  predicate SameAt(a: World, b: World, uri: string) {
    uri in a.rows && uri in b.rows && b.rows[uri] == a.rows[uri] && SendsOf(b.sent, uri) == SendsOf(a.sent, uri)
  }

  /** The row still says it, and is as it was if it came of a call before. */
  ghost predicate Keeps(a: World, b: World, base: nat, uri: string)
    requires uri in a.rows
  {
    Keyed(b.rows) && Says(b, base, uri) && (Called(a.rows[uri]) ==> SameAt(a, b, uri))
  }

  lemma KeepsTransitive(a: World, b: World, c: World, base: nat, uri: string)
    requires uri in a.rows && Keeps(a, b, base, uri) && Keeps(b, c, base, uri)
    ensures Keeps(a, c, base, uri)
  {
  }

  /** A decision makes a call exactly if the row it leaves came of one. */
  lemma DecisionCalls(env: Env, msg: Message, content: Content, blobError: Option<string>, n: nat, now: int)
    requires PublisherOk(env)
    ensures var d := Decide(env, msg, content, blobError, n, now);
      && d.msg.uri == msg.uri && !d.msg.state.NoState?
      && (if Sends(env, content) then |d.sent| == 1 && d.sent[0].uri == msg.uri && Called(d.msg) else d.sent == [] && !Called(d.msg))
      && (d.msg.state.PublishedState? ==> !Blank(d.msg.ref))
  {
  }

  lemma WriteSays(w: World, msg: Message, sent: seq<Sent>, handled: seq<Version>, now: int, uri: string)
    requires !msg.state.NoState? && Keyed(w.rows) && (msg.state.PublishedState? ==> !Blank(msg.ref))
    requires if Called(msg) then |sent| == 1 && sent[0].uri == msg.uri else sent == []
    ensures var after := World(Upsert(w.rows, msg, now), w.sent + sent, handled);
      && Keyed(after.rows) && msg.uri in after.rows && Called(after.rows[msg.uri]) == Called(msg)
      && Says(after, SendsOf(w.sent, msg.uri), msg.uri)
      && (uri != msg.uri && uri in w.rows ==> SameAt(w, after, uri))
      && SendsOf(after.sent, uri) == SendsOf(w.sent, uri) + if uri == msg.uri then |sent| else 0
  {
    if sent == [] {
      assert w.sent + sent == w.sent;
    } else {
      assert sent == [sent[0]];
      SendsOneMore(w.sent, sent[0], msg.uri);
      SendsOneMore(w.sent, sent[0], uri);
    }
  }

  lemma FinishedSays(env: Env, w: World, msg: Message, content: Content, blobError: Option<string>, version: Version, now: int, uri: string)
    requires PublisherOk(env) && Keyed(w.rows)
    ensures var after := Finished(env, w, msg, content, blobError, version, now);
      && Keyed(after.rows) && msg.uri in after.rows && (Called(after.rows[msg.uri]) <==> Sends(env, content))
      && Says(after, SendsOf(w.sent, msg.uri), msg.uri)
      && (uri != msg.uri && uri in w.rows ==> SameAt(w, after, uri))
      && SendsOf(after.sent, uri) == SendsOf(w.sent, uri) + if uri == msg.uri && Sends(env, content) then 1 else 0
  {
    var d := Decide(env, msg, content, blobError, |w.sent|, now);
    DecisionCalls(env, msg, content, blobError, |w.sent|, now);
    WriteSays(w, d.msg, d.sent, w.handled + [version], now, uri);
  }

  // ---------------------------------------------------------------- the recursion through the dependencies

  /** The root has asked for the record already, or cannot ask for it, which it does by trimmed names that are not empty. */
  predicate Shielded(sc: Scene, uri: string) {
    uri in sc.visited || uri == "" || Trim(uri) != uri
  }

  /** What processing some other records, or this one for the first time, does to a record. */
  ghost predicate Grows(sc: Scene, after: Scene, base: nat, uri: string, own: bool)
    requires uri in sc.w.rows
  {
    && sc.visited <= after.visited && Keeps(sc.w, after.w, base, uri)
    && (Shielded(sc, uri) && !own ==> SameAt(sc.w, after.w, uri))
  }

  lemma GrowsNothing(sc: Scene, base: nat, uri: string)
    requires Keyed(sc.w.rows) && Says(sc.w, base, uri)
    ensures Grows(sc, sc, base, uri, false)
  {
  }

  lemma GrowsTransitive(a: Scene, b: Scene, c: Scene, base: nat, uri: string)
    requires uri in a.w.rows && Grows(a, b, base, uri, false) && Grows(b, c, base, uri, false)
    ensures Grows(a, c, base, uri, false)
  {
  }

  /** A record is processed only if its row did not come of a call, by a root that has asked for it. */
  predicate MayProcess(sc: Scene, record: Fetched, uri: string)
    requires uri in sc.w.rows
  {
    record.uri == uri ==> !Called(sc.w.rows[uri]) && Shielded(sc, uri)
  }

  lemma {:induction false} ProcessedGrows(env: Env, sc: Scene, depth: nat, record: Fetched, now: int, base: nat, uri: string)
    requires PublisherOk(env) && AnswersAsAsked(env) && Keyed(sc.w.rows) && Says(sc.w, base, uri) && depth <= MAX_DEPTH
    requires MayProcess(sc, record, uri)
    ensures Grows(sc, Processed(env, sc, depth, record, now), base, uri, record.uri == uri)
    decreases MAX_DEPTH - depth, 3, 0
  {
    if MappedRecord(env, record).Some? && !Duplicate(sc.w.rows, record.uri, record.cid) {
      var content := MappedRecord(env, record).value;
      HydratedGrows(env, sc, depth, content, now, base, uri);
      var after := Hydrated(env, sc, depth, content, now);
      var resolved := Resolved(env, after.w.rows, Resolved(env, sc.w.rows, content));
      RecordGrows(env, sc, after, record, resolved, now, base, uri);
    }
  }

  lemma RecordGrows(env: Env, sc: Scene, after: Scene, record: Fetched, content: Content, now: int, base: nat, uri: string)
    requires PublisherOk(env) && Says(sc.w, base, uri) && MayProcess(sc, record, uri) && Grows(sc, after, base, uri, false)
    ensures Grows(sc, after.(w := RecordFinished(env, after.w, record, content, now)), base, uri, record.uri == uri)
  {
    FinishedSays(env, after.w, NewRow(record, content), content, env.blobs(record.uri), Version(record.uri, Trim(record.cid)), now, uri);
  }

  lemma {:induction false} HydratedGrows(env: Env, sc: Scene, depth: nat, content: Content, now: int, base: nat, uri: string)
    requires PublisherOk(env) && AnswersAsAsked(env) && Keyed(sc.w.rows) && Says(sc.w, base, uri) && depth <= MAX_DEPTH
    ensures Grows(sc, Hydrated(env, sc, depth, content, now), base, uri, false)
    decreases MAX_DEPTH - depth, 2, 0
  {
    if env.fetcher.Some? {
      var uris := Dependencies(Resolved(env, sc.w.rows, content));
      EnsuredAllGrows(env, sc, depth, uris, |uris|, now, base, uri);
    }
  }

  lemma {:induction false} EnsuredAllGrows(env: Env, sc: Scene, depth: nat, uris: seq<string>, n: nat, now: int, base: nat, uri: string)
    requires PublisherOk(env) && AnswersAsAsked(env) && Keyed(sc.w.rows) && Says(sc.w, base, uri) && depth <= MAX_DEPTH
    requires n <= |uris| && env.fetcher.Some?
    ensures Grows(sc, EnsuredAll(env, sc, depth, uris, n, now), base, uri, false)
    decreases MAX_DEPTH - depth, 1, n
  {
    if n == 0 {
      GrowsNothing(sc, base, uri);
    } else {
      EnsuredAllGrows(env, sc, depth, uris, n - 1, now, base, uri);
      var before := EnsuredAll(env, sc, depth, uris, n - 1, now);
      EnsuredGrows(env, before, depth, uris[n - 1], now, base, uri);
      GrowsTransitive(sc, before, Ensured(env, before, depth, uris[n - 1], now), base, uri);
    }
  }

  lemma {:induction false} EnsuredGrows(env: Env, sc: Scene, depth: nat, name: string, now: int, base: nat, uri: string)
    requires PublisherOk(env) && AnswersAsAsked(env) && Keyed(sc.w.rows) && Says(sc.w, base, uri) && depth <= MAX_DEPTH && env.fetcher.Some?
    ensures Grows(sc, Ensured(env, sc, depth, name, now), base, uri, false)
    decreases MAX_DEPTH - depth, 0, 3
  {
    GrowsNothing(sc, base, uri);
    var asked := Trim(name);
    if asked != "" && depth + 1 <= MAX_DEPTH && asked !in sc.visited {
      TrimTwice(name);
      var noted := sc.(visited := sc.visited + {asked});
      ProvidedGrows(env, noted, depth, asked, now, base, uri);
      AskedGrows(sc, noted, Provided(env, noted, depth, asked, now), asked, base, uri);
    }
  }

  lemma AskedGrows(sc: Scene, noted: Scene, after: Scene, asked: string, base: nat, uri: string)
    requires uri in sc.w.rows && asked != "" && Trim(asked) == asked && asked !in sc.visited && noted == sc.(visited := sc.visited + {asked})
    requires Grows(noted, after, base, uri, asked == uri)
    ensures Grows(sc, after, base, uri, false)
  {
  }

  lemma {:induction false} ProvidedGrows(env: Env, sc: Scene, depth: nat, asked: string, now: int, base: nat, uri: string)
    requires PublisherOk(env) && AnswersAsAsked(env) && Keyed(sc.w.rows) && Says(sc.w, base, uri) && depth < MAX_DEPTH && env.fetcher.Some?
    requires asked in sc.visited
    ensures Grows(sc, Provided(env, sc, depth, asked, now), base, uri, asked == uri)
    decreases MAX_DEPTH - depth, 0, 2
  {
    GrowsNothing(sc, base, uri);
    var row := Get(sc.w.rows, asked);
    if row.Some? && Blank(row.value.ref) && Reprocessable(row.value) {
      ReprocessedGrows(env, sc, depth, asked, RecordOf(row.value), now, base, uri);
    } else if row.None? || (Blank(row.value.ref) && !row.value.state.FailedState?) {
      RequestedGrows(env, sc, depth, asked, now, base, uri);
    }
  }

  lemma {:induction false} RequestedGrows(env: Env, sc: Scene, depth: nat, asked: string, now: int, base: nat, uri: string)
    requires PublisherOk(env) && AnswersAsAsked(env) && Keyed(sc.w.rows) && Says(sc.w, base, uri) && depth < MAX_DEPTH && env.fetcher.Some?
    requires asked == uri ==> !Called(sc.w.rows[uri]) && Shielded(sc, uri)
    ensures Grows(sc, Requested(env, sc, depth, asked, now), base, uri, asked == uri)
    decreases MAX_DEPTH - depth, 0, 1
  {
    GrowsNothing(sc, base, uri);
    var (spent, answer) := Asked(env, sc, asked);
    if answer.Ok? {
      assert Fetch(env, spent.fetches, asked).Ok?;
      ReprocessedGrows(env, spent, depth, asked, answer.value, now, base, uri);
    }
  }

  lemma {:induction false} ReprocessedGrows(env: Env, sc: Scene, depth: nat, asked: string, record: Fetched, now: int, base: nat, uri: string)
    requires PublisherOk(env) && AnswersAsAsked(env) && Keyed(sc.w.rows) && Says(sc.w, base, uri) && depth < MAX_DEPTH
    requires MayProcess(sc, record, uri)
    ensures Grows(sc, Reprocessed(env, sc, depth, asked, record, now), base, uri, record.uri == uri)
    decreases MAX_DEPTH - depth, 0, 0
  {
    ProcessedGrows(env, sc.(processed := sc.processed + [asked]), depth + 1, record, now, base, uri);
  }

  // ---------------------------------------------------------------- attempts

  lemma DoneCounts(env: Env, mid: Site, candidate: Message, content: Content, now: int, uri: string)
    ensures SendsOf(AgainDone(env, mid, candidate, content, now).site.w.sent, uri)
         == SendsOf(mid.w.sent, uri) + if uri == candidate.uri && Sends(env, content) then 1 else 0
  {
    var d := Decide(env, DeferredRow(candidate, content, now), content, BlobErrorOf(env, candidate), |mid.w.sent|, now);
    DecidedSends(env, DeferredRow(candidate, content, now), content, BlobErrorOf(env, candidate), |mid.w.sent|, now);
    if d.sent == [] {
      assert mid.w.sent + d.sent == mid.w.sent;
    } else {
      assert d.sent == [d.sent[0]];
      SendsOneMore(mid.w.sent, d.sent[0], uri);
    }
  }

  /** The candidate's message can be sent, with what was resolved when it was attempted. */
  predicate CanBeSent(env: Env, s: Site, a: Attempt, candidate: Message) {
    MappedAgain(env, candidate).Some? && Sends(env, ResolvedAgain(env, s.w.rows, a.mid.rows, candidate))
  }

  lemma DoneSays(env: Env, mid: Site, candidate: Message, content: Content, now: int, uri: string)
    requires PublisherOk(env) && Keyed(mid.w.rows)
    ensures var after := AgainDone(env, mid, candidate, content, now).site.w;
      && Keyed(after.rows) && candidate.uri in after.rows && (Called(after.rows[candidate.uri]) <==> Sends(env, content))
      && Says(after, SendsOf(mid.w.sent, candidate.uri), candidate.uri)
      && (uri != candidate.uri && uri in mid.w.rows ==> SameAt(mid.w, after, uri))
  {
    FinishedSays(env, mid.w, DeferredRow(candidate, content, now), content, BlobErrorOf(env, candidate), Rewrite(candidate.uri), now, uri);
  }

  /** Its own attempt finds a candidate as it was, and makes a call for it if it can be sent. */
  lemma OwnAttempt(env: Env, s: Site, candidate: Message, now: int, base: nat)
    requires PublisherOk(env) && AnswersAsAsked(env) && Keyed(s.w.rows) && Says(s.w, base, candidate.uri)
    ensures var a, uri := Again(env, s, candidate, now), candidate.uri;
      && Keyed(a.site.w.rows) && uri in a.site.w.rows
      && (MappedAgain(env, candidate).None? ==> a.site.w == s.w)
      && (MappedAgain(env, candidate).Some? ==>
            Says(a.site.w, SendsOf(s.w.sent, uri), uri) && (Called(a.site.w.rows[uri]) <==> CanBeSent(env, s, a, candidate)))
  {
    if MappedAgain(env, candidate).Some? {
      var content := MappedAgain(env, candidate).value;
      OwnHydrates(env, s, candidate.uri, content, now, base);
      var sc := Hydrated(env, Entering(s.w, s.fetches, candidate.uri), 0, content, now);
      DoneSays(env, Site(sc.w, sc.fetches), candidate, ResolvedAgain(env, s.w.rows, sc.w.rows, candidate), now, candidate.uri);
    }
  }

  lemma OwnHydrates(env: Env, s: Site, uri: string, content: Content, now: int, base: nat)
    requires PublisherOk(env) && AnswersAsAsked(env) && Keyed(s.w.rows) && Says(s.w, base, uri)
    ensures var sc := Hydrated(env, Entering(s.w, s.fetches, uri), 0, content, now);
      Keyed(sc.w.rows) && SendsOf(sc.w.sent, uri) == SendsOf(s.w.sent, uri)
  {
    var entering := Entering(s.w, s.fetches, uri);
    HydratedGrows(env, entering, 0, content, now, base, uri);
    assert Shielded(entering, uri);
  }

  /** Another candidate's attempt makes a call for a record only by processing it, and only if none of its rows came of a call. */
  lemma OtherAttempt(env: Env, s: Site, candidate: Message, now: int, base: nat, uri: string)
    requires PublisherOk(env) && AnswersAsAsked(env) && Keyed(s.w.rows) && Says(s.w, base, uri) && candidate.uri != uri
    ensures Keeps(s.w, Again(env, s, candidate, now).site.w, base, uri)
  {
    if MappedAgain(env, candidate).Some? {
      var content, entering := MappedAgain(env, candidate).value, Entering(s.w, s.fetches, candidate.uri);
      HydratedGrows(env, entering, 0, content, now, base, uri);
      var sc := Hydrated(env, entering, 0, content, now);
      DoneSays(env, Site(sc.w, sc.fetches), candidate, ResolvedAgain(env, s.w.rows, sc.w.rows, candidate), now, uri);
    }
  }

  /** None of the candidates attempted is the record. */
  predicate Others(candidates: seq<Message>, order: seq<int>, uri: string) {
    forall j :: 0 <= j < |order| && 0 <= order[j] < |candidates| ==> candidates[order[j]].uri != uri
  }

  lemma {:induction false} OthersKeep(env: Env, candidates: seq<Message>, s: Site, order: seq<int>, now: int, base: nat, uri: string)
    requires PublisherOk(env) && AnswersAsAsked(env) && Keyed(s.w.rows) && Says(s.w, base, uri) && Others(candidates, order, uri)
    ensures Keeps(s.w, Ran(BatchOf(env, candidates, now), s, order).w, base, uri)
    decreases |order|
  {
    if order != [] {
      var b, m := BatchOf(env, candidates, now), |order| - 1;
      var before := Ran(b, s, order[..m]);
      OthersKeep(env, candidates, s, order[..m], now, base, uri);
      RanOneMore(b, s, order);
      StepKeeps(env, candidates, before, order[m], now, base, uri);
      KeepsTransitive(s.w, before.w, Ran(b, s, order).w, base, uri);
    }
  }

  lemma StepKeeps(env: Env, candidates: seq<Message>, s: Site, i: int, now: int, base: nat, uri: string)
    requires PublisherOk(env) && AnswersAsAsked(env) && Keyed(s.w.rows) && Says(s.w, base, uri)
    requires 0 <= i < |candidates| ==> candidates[i].uri != uri
    ensures Keeps(s.w, AttemptIn(env, candidates, now)(s, i).0.w, base, uri)
  {
    if 0 <= i < |candidates| {
      OtherAttempt(env, s, candidates[i], now, base, uri);
    }
  }

  lemma {:induction false} RanParts<S>(b: Batch<S>, s: S, x: seq<int>, y: seq<int>)
    ensures Ran(b, s, x + y) == Ran(b, Ran(b, s, x), y)
    decreases |y|
  {
    if y == [] {
      assert x + y == x;
    } else {
      var m := |y| - 1;
      assert (x + y)[..|x + y| - 1] == x + y[..m];
      RanParts(b, s, x, y[..m]);
    }
  }

  /** The site before an attempt of a pass. */
  ghost function Before(env: Env, candidates: seq<Message>, site: Site, now: int, k: nat): Site
    requires k < |candidates|
  {
    Ran(BatchOf(env, candidates, now), site, PassOf(env, candidates, site, now).order[..k])
  }

  /** No candidate's row, as the pass finds it, came of a call. */
  ghost predicate Waiting(rows: Rows, candidates: seq<Message>) {
    Keyed(rows) && forall c <- candidates :: c.uri in rows && !Called(rows[c.uri])
  }

  /** The order of a pass around one of its attempts. */
  lemma AroundAttempt(env: Env, candidates: seq<Message>, site: Site, now: int, k: nat)
    requires DistinctUris(candidates) && k < |candidates|
    ensures var order := PassOf(env, candidates, site, now).order;
      var c := candidates[order[k]];
      && Others(candidates, order[..k], c.uri) && Others(candidates, order[k + 1..], c.uri)
      && PassOf(env, candidates, site, now).site
           == Ran(BatchOf(env, candidates, now), Again(env, Before(env, candidates, site, now, k), c, now).site, order[k + 1..])
  {
    var b, order := BatchOf(env, candidates, now), PassOf(env, candidates, site, now).order;
    BatchIsClosed(env, candidates, now);
    PassIsItsAttempts(b, site);
    OthersAround(candidates, order, k);
    RanAround(b, site, order, k);
  }

  lemma OthersAround(candidates: seq<Message>, order: seq<int>, k: nat)
    requires DistinctUris(candidates) && Listed(order, |candidates|) && k < |order|
    ensures Others(candidates, order[..k], candidates[order[k]].uri) && Others(candidates, order[k + 1..], candidates[order[k]].uri)
  {
  }

  lemma RanAround<S>(b: Batch<S>, s: S, order: seq<int>, k: nat)
    requires k < |order|
    ensures Ran(b, s, order) == Ran(b, b.attempt(Ran(b, s, order[..k]), order[k]).0, order[k + 1..])
  {
    assert order == order[..k + 1] + order[k + 1..];
    RanParts(b, s, order[..k + 1], order[k + 1..]);
    RanOneMore(b, s, order[..k + 1]);
    assert order[..k + 1][..k] == order[..k];
  }

  /**
   With a resolver that answers with the records it was asked for, a pass sends each candidate at most twice:
   once if its stored record maps and its row already came of a call when it was attempted, since another
   candidate's attempt had processed it; and once if its row comes of a call at the end. It does if its own
   attempt could send it.
   */
  lemma SentAtMostTwice(env: Env, candidates: seq<Message>, site: Site, now: int, k: nat)
    requires PublisherOk(env) && AnswersAsAsked(env) && DistinctUris(candidates) && Waiting(site.w.rows, candidates) && k < |candidates|
    ensures var c, s, end := candidates[PassOf(env, candidates, site, now).order[k]], Before(env, candidates, site, now, k),
                             PassOf(env, candidates, site, now).site;
      && c.uri in s.w.rows && c.uri in end.w.rows
      && SendsOf(end.w.sent, c.uri) == SendsOf(site.w.sent, c.uri)
           + (if MappedAgain(env, c).Some? && Called(s.w.rows[c.uri]) then 1 else 0) + (if Called(end.w.rows[c.uri]) then 1 else 0)
      && (CanBeSent(env, s, Again(env, s, c, now), c) ==> Called(end.w.rows[c.uri]))
  {
    var order, b := PassOf(env, candidates, site, now).order, BatchOf(env, candidates, now);
    var c, s := candidates[order[k]], Before(env, candidates, site, now, k);
    var base := SendsOf(site.w.sent, c.uri);
    AroundAttempt(env, candidates, site, now, k);
    assert c in candidates;
    OthersKeep(env, candidates, site, order[..k], now, base, c.uri);
    OwnAttempt(env, s, c, now, base);
    var a := Again(env, s, c, now);
    var next := if MappedAgain(env, c).Some? then SendsOf(s.w.sent, c.uri) else base;
    OthersKeep(env, candidates, a.site, order[k + 1..], now, next, c.uri);
  }

  // ---------------------------------------------------------------- without a resolver

  predicate Attempts(candidates: seq<Message>, order: seq<int>, uri: string) {
    exists k :: 0 <= k < |order| && 0 <= order[k] < |candidates| && candidates[order[k]].uri == uri
  }

  lemma QuietSends(env: Env, s: Site, candidate: Message, now: int, uri: string)
    requires env.fetcher.None?
    ensures SendsOf(Again(env, s, candidate, now).site.w.sent, uri) <= SendsOf(s.w.sent, uri) + if candidate.uri == uri then 1 else 0
  {
    QuietAttempt(env, s, candidate, now);
    if MappedAgain(env, candidate).Some? {
      DoneCounts(env, s, candidate, ResolvedAgain(env, s.w.rows, s.w.rows, candidate), now, uri);
    }
  }

  lemma {:induction false} RanSendsOnce(env: Env, candidates: seq<Message>, s: Site, order: seq<int>, now: int, uri: string)
    requires env.fetcher.None? && DistinctUris(candidates) && Listed(order, |candidates|)
    ensures SendsOf(Ran(BatchOf(env, candidates, now), s, order).w.sent, uri)
         <= SendsOf(s.w.sent, uri) + if Attempts(candidates, order, uri) then 1 else 0
    decreases |order|
  {
    if order != [] {
      var m := |order| - 1;
      var b := BatchOf(env, candidates, now);
      RanSendsOnce(env, candidates, s, order[..m], now, uri);
      RanOneMore(b, s, order);
      QuietSends(env, Ran(b, s, order[..m]), candidates[order[m]], now, uri);
      AttemptsOneMore(candidates, order, uri);
    }
  }

  lemma AttemptsOneMore(candidates: seq<Message>, order: seq<int>, uri: string)
    requires DistinctUris(candidates) && Listed(order, |candidates|) && order != []
    ensures var m := |order| - 1;
      && (Attempts(candidates, order, uri) <==> Attempts(candidates, order[..m], uri) || candidates[order[m]].uri == uri)
      && !(Attempts(candidates, order[..m], uri) && candidates[order[m]].uri == uri)
  {
    var m := |order| - 1;
    if Attempts(candidates, order[..m], uri) {
      var k :| 0 <= k < m && candidates[order[..m][k]].uri == uri;
      assert order[k] == order[..m][k];
    }
    if Attempts(candidates, order, uri) && candidates[order[m]].uri != uri {
      var k :| 0 <= k < |order| && 0 <= order[k] < |candidates| && candidates[order[k]].uri == uri;
      assert order[..m][k] == order[k];
    }
  }

  /** Without a resolver, a pass sends each candidate at most once, and nothing else. */
  lemma WithoutResolverSentOnce(env: Env, candidates: seq<Message>, site: Site, now: int, uri: string)
    requires env.fetcher.None? && DistinctUris(candidates)
    ensures SendsOf(PassOf(env, candidates, site, now).site.w.sent, uri)
         <= SendsOf(site.w.sent, uri) + if exists c <- candidates :: c.uri == uri then 1 else 0
  {
    var b := BatchOf(env, candidates, now);
    BatchIsClosed(env, candidates, now);
    PassIsItsAttempts(b, site);
    var order := PassOf(env, candidates, site, now).order;
    RanSendsOnce(env, candidates, site, order, now, uri);
    if Attempts(candidates, order, uri) {
      var k :| 0 <= k < |order| && 0 <= order[k] < |candidates| && candidates[order[k]].uri == uri;
      assert candidates[order[k]] in candidates;
    }
  }
}
