/**
 When a pass over the deferred messages sends a candidate twice: which of its attempts come to process a record
 with its references found, their own or, through the dependencies, another's.
 */
module Resending {
  import opened Wrappers
  import opened Text
  import opened Mapper
  import opened Messages
  import opened Lifecycle
  import opened Processor
  import opened DeferredCascade
  import opened DeferredPass
  import opened Republishing

  // ---------------------------------------------------------------- coming to a record with its references found

  /** Processing a record comes to the one of the URI, itself or as a dependency, and finds its references. */
  ghost predicate SentByRecord(env: Env, sc: Scene, depth: nat, record: Fetched, now: int, uri: string)
    requires depth <= MAX_DEPTH
    decreases MAX_DEPTH - depth, 3, 0
  {
    MappedRecord(env, record).Some? && !Duplicate(sc.w.rows, record.uri, record.cid) &&
      var content := MappedRecord(env, record).value;
      || SentByDependencies(env, sc, depth, content, now, uri)
      || (record.uri == uri && Sends(env, Resolved(env, Hydrated(env, sc, depth, content, now).w.rows, Resolved(env, sc.w.rows, content))))
  }

  ghost predicate SentByDependencies(env: Env, sc: Scene, depth: nat, content: Content, now: int, uri: string)
    requires depth <= MAX_DEPTH
    decreases MAX_DEPTH - depth, 2, 0
  {
    env.fetcher.Some? &&
      var uris := Dependencies(Resolved(env, sc.w.rows, content));
      SentByAny(env, sc, depth, uris, |uris|, now, uri)
  }

  ghost predicate SentByAny(env: Env, sc: Scene, depth: nat, uris: seq<string>, n: nat, now: int, uri: string)
    requires depth <= MAX_DEPTH && n <= |uris| && env.fetcher.Some?
    decreases MAX_DEPTH - depth, 1, n
  {
    n > 0 &&
      (|| SentByAny(env, sc, depth, uris, n - 1, now, uri)
       || SentByOne(env, EnsuredAll(env, sc, depth, uris, n - 1, now), depth, uris[n - 1], now, uri))
  }

  ghost predicate SentByOne(env: Env, sc: Scene, depth: nat, name: string, now: int, uri: string)
    requires depth <= MAX_DEPTH && env.fetcher.Some?
    decreases MAX_DEPTH - depth, 0, 3
  {
    var asked := Trim(name);
    asked != "" && depth + 1 <= MAX_DEPTH && asked !in sc.visited &&
      SentByProviding(env, sc.(visited := sc.visited + {asked}), depth, asked, now, uri)
  }

  ghost predicate SentByProviding(env: Env, sc: Scene, depth: nat, asked: string, now: int, uri: string)
    requires depth < MAX_DEPTH && env.fetcher.Some?
    decreases MAX_DEPTH - depth, 0, 2
  {
    var row := Get(sc.w.rows, asked);
    if row.Some? && !Blank(row.value.ref) then false
    else if row.Some? && Reprocessable(row.value) then SentAgainBy(env, sc, depth, asked, RecordOf(row.value), now, uri)
    else if row.Some? && row.value.state.FailedState? then false
    else SentByRequest(env, sc, depth, asked, now, uri)
  }

  ghost predicate SentByRequest(env: Env, sc: Scene, depth: nat, asked: string, now: int, uri: string)
    requires depth < MAX_DEPTH && env.fetcher.Some?
    decreases MAX_DEPTH - depth, 0, 1
  {
    match Asked(env, sc, asked)
    case (_, Err(_)) => false
    case (spent, Ok(record)) => SentAgainBy(env, spent, depth, asked, record, now, uri)
  }

  ghost predicate SentAgainBy(env: Env, sc: Scene, depth: nat, asked: string, record: Fetched, now: int, uri: string)
    requires depth < MAX_DEPTH
    decreases MAX_DEPTH - depth, 0, 0
  {
    SentByRecord(env, sc.(processed := sc.processed + [asked]), depth + 1, record, now, uri)
  }

  // ---------------------------------------------------------------- then there is a call, and only then

  /** The row came of a call before, or does now. */
  predicate CalledNow(before: World, after: World, uri: string, now: bool)
    requires uri in before.rows
  {
    uri in after.rows && (Called(after.rows[uri]) <==> Called(before.rows[uri]) || now)
  }

  ghost predicate Sayable(env: Env, sc: Scene, base: nat, uri: string) {
    PublisherOk(env) && AnswersAsAsked(env) && Keyed(sc.w.rows) && Says(sc.w, base, uri)
  }

  lemma {:induction false} RecordCalls(env: Env, sc: Scene, depth: nat, record: Fetched, now: int, base: nat, uri: string)
    requires Sayable(env, sc, base, uri) && depth <= MAX_DEPTH && MayProcess(sc, record, uri)
    ensures CalledNow(sc.w, Processed(env, sc, depth, record, now).w, uri, SentByRecord(env, sc, depth, record, now, uri))
    decreases MAX_DEPTH - depth, 3, 0
  {
    if MappedRecord(env, record).Some? && !Duplicate(sc.w.rows, record.uri, record.cid) {
      var content := MappedRecord(env, record).value;
      var after := Hydrated(env, sc, depth, content, now);
      var resolved := Resolved(env, after.w.rows, Resolved(env, sc.w.rows, content));
      RecordUnfolds(env, sc, depth, record, now, uri, content, after, resolved);
      HydratedGrows(env, sc, depth, content, now, base, uri);
      DependenciesCall(env, sc, depth, content, now, base, uri);
      FinishCalls(env, sc, after, record, resolved, now, base, uri, SentByDependencies(env, sc, depth, content, now, uri));
    }
  }

  /** The parts of handling a record that maps and is new. */
  lemma RecordUnfolds(env: Env, sc: Scene, depth: nat, record: Fetched, now: int, uri: string, content: Content, after: Scene, resolved: Content)
    requires depth <= MAX_DEPTH && MappedRecord(env, record) == Some(content) && !Duplicate(sc.w.rows, record.uri, record.cid)
    requires after == Hydrated(env, sc, depth, content, now)
    requires resolved == Resolved(env, after.w.rows, Resolved(env, sc.w.rows, content))
    ensures Processed(env, sc, depth, record, now).w == RecordFinished(env, after.w, record, resolved, now)
    ensures SentByRecord(env, sc, depth, record, now, uri) <==>
      SentByDependencies(env, sc, depth, content, now, uri) || (record.uri == uri && Sends(env, resolved))
  {
  }

  lemma FinishCalls(env: Env, sc: Scene, after: Scene, record: Fetched, content: Content, now: int, base: nat, uri: string, so: bool)
    requires PublisherOk(env) && Says(sc.w, base, uri) && MayProcess(sc, record, uri) && Grows(sc, after, base, uri, false)
    requires CalledNow(sc.w, after.w, uri, so)
    ensures CalledNow(sc.w, RecordFinished(env, after.w, record, content, now), uri, so || (record.uri == uri && Sends(env, content)))
  {
    FinishedSays(env, after.w, NewRow(record, content), content, env.blobs(record.uri), Version(record.uri, Trim(record.cid)), now, uri);
  }

  lemma {:induction false} DependenciesCall(env: Env, sc: Scene, depth: nat, content: Content, now: int, base: nat, uri: string)
    requires Sayable(env, sc, base, uri) && depth <= MAX_DEPTH
    ensures CalledNow(sc.w, Hydrated(env, sc, depth, content, now).w, uri, SentByDependencies(env, sc, depth, content, now, uri))
    decreases MAX_DEPTH - depth, 2, 0
  {
    if env.fetcher.Some? {
      var uris := Dependencies(Resolved(env, sc.w.rows, content));
      AnyCalls(env, sc, depth, uris, |uris|, now, base, uri);
    }
  }

  lemma {:induction false} AnyCalls(env: Env, sc: Scene, depth: nat, uris: seq<string>, n: nat, now: int, base: nat, uri: string)
    requires Sayable(env, sc, base, uri) && depth <= MAX_DEPTH && n <= |uris| && env.fetcher.Some?
    ensures CalledNow(sc.w, EnsuredAll(env, sc, depth, uris, n, now).w, uri, SentByAny(env, sc, depth, uris, n, now, uri))
    decreases MAX_DEPTH - depth, 1, n
  {
    if n > 0 {
      var before := EnsuredAll(env, sc, depth, uris, n - 1, now);
      EnsuredAllGrows(env, sc, depth, uris, n - 1, now, base, uri);
      AnyCalls(env, sc, depth, uris, n - 1, now, base, uri);
      OneCalls(env, before, depth, uris[n - 1], now, base, uri);
    }
  }

  lemma {:induction false} OneCalls(env: Env, sc: Scene, depth: nat, name: string, now: int, base: nat, uri: string)
    requires Sayable(env, sc, base, uri) && depth <= MAX_DEPTH && env.fetcher.Some?
    ensures CalledNow(sc.w, Ensured(env, sc, depth, name, now).w, uri, SentByOne(env, sc, depth, name, now, uri))
    decreases MAX_DEPTH - depth, 0, 3
  {
    var asked := Trim(name);
    if asked != "" && depth + 1 <= MAX_DEPTH && asked !in sc.visited {
      ProvidingCalls(env, sc.(visited := sc.visited + {asked}), depth, asked, now, base, uri);
    }
  }

  lemma {:induction false} ProvidingCalls(env: Env, sc: Scene, depth: nat, asked: string, now: int, base: nat, uri: string)
    requires Sayable(env, sc, base, uri) && depth < MAX_DEPTH && env.fetcher.Some? && asked in sc.visited
    ensures CalledNow(sc.w, Provided(env, sc, depth, asked, now).w, uri, SentByProviding(env, sc, depth, asked, now, uri))
    decreases MAX_DEPTH - depth, 0, 2
  {
    var row := Get(sc.w.rows, asked);
    if row.Some? && Blank(row.value.ref) && Reprocessable(row.value) {
      AgainCalls(env, sc, depth, asked, RecordOf(row.value), now, base, uri);
    } else if row.None? || (Blank(row.value.ref) && !row.value.state.FailedState?) {
      RequestCalls(env, sc, depth, asked, now, base, uri);
    }
  }

  lemma {:induction false} RequestCalls(env: Env, sc: Scene, depth: nat, asked: string, now: int, base: nat, uri: string)
    requires Sayable(env, sc, base, uri) && depth < MAX_DEPTH && env.fetcher.Some?
    requires asked == uri ==> !Called(sc.w.rows[uri]) && Shielded(sc, uri)
    ensures CalledNow(sc.w, Requested(env, sc, depth, asked, now).w, uri, SentByRequest(env, sc, depth, asked, now, uri))
    decreases MAX_DEPTH - depth, 0, 1
  {
    var (spent, answer) := Asked(env, sc, asked);
    if answer.Ok? {
      assert Fetch(env, spent.fetches, asked).Ok?;
      AgainCalls(env, spent, depth, asked, answer.value, now, base, uri);
    }
  }

  lemma {:induction false} AgainCalls(env: Env, sc: Scene, depth: nat, asked: string, record: Fetched, now: int, base: nat, uri: string)
    requires Sayable(env, sc, base, uri) && depth < MAX_DEPTH && MayProcess(sc, record, uri)
    ensures CalledNow(sc.w, Reprocessed(env, sc, depth, asked, record, now).w, uri, SentAgainBy(env, sc, depth, asked, record, now, uri))
    decreases MAX_DEPTH - depth, 0, 0
  {
    RecordCalls(env, sc.(processed := sc.processed + [asked]), depth + 1, record, now, base, uri);
  }

  // ---------------------------------------------------------------- attempts

  /** The attempt at a candidate comes, through its dependencies, to the record of the URI and finds its references. */
  ghost predicate SentByAttempt(env: Env, s: Site, candidate: Message, now: int, uri: string) {
    MappedAgain(env, candidate).Some? &&
      SentByDependencies(env, Entering(s.w, s.fetches, candidate.uri), 0, MappedAgain(env, candidate).value, now, uri)
  }

  /** One of these attempts does, made in turn. */
  ghost predicate SentAlong(env: Env, candidates: seq<Message>, s: Site, order: seq<int>, now: int, uri: string)
    decreases |order|
  {
    order != [] &&
      var m := |order| - 1;
      || SentAlong(env, candidates, s, order[..m], now, uri)
      || (0 <= order[m] < |candidates|
            && SentByAttempt(env, Ran(BatchOf(env, candidates, now), s, order[..m]), candidates[order[m]], now, uri))
  }

  lemma AttemptCalls(env: Env, s: Site, candidate: Message, now: int, base: nat, uri: string)
    requires PublisherOk(env) && AnswersAsAsked(env) && Keyed(s.w.rows) && Says(s.w, base, uri) && candidate.uri != uri
    ensures CalledNow(s.w, Again(env, s, candidate, now).site.w, uri, SentByAttempt(env, s, candidate, now, uri))
  {
    if MappedAgain(env, candidate).Some? {
      var content, entering := MappedAgain(env, candidate).value, Entering(s.w, s.fetches, candidate.uri);
      HydratedGrows(env, entering, 0, content, now, base, uri);
      DependenciesCall(env, entering, 0, content, now, base, uri);
      var sc := Hydrated(env, entering, 0, content, now);
      DoneSays(env, Site(sc.w, sc.fetches), candidate, ResolvedAgain(env, s.w.rows, sc.w.rows, candidate), now, uri);
    }
  }

  lemma StepCalls(env: Env, candidates: seq<Message>, s: Site, i: int, now: int, base: nat, uri: string)
    requires PublisherOk(env) && AnswersAsAsked(env) && Keyed(s.w.rows) && Says(s.w, base, uri)
    requires 0 <= i < |candidates| ==> candidates[i].uri != uri
    ensures CalledNow(s.w, AttemptIn(env, candidates, now)(s, i).0.w, uri,
      0 <= i < |candidates| && SentByAttempt(env, s, candidates[i], now, uri))
  {
    if 0 <= i < |candidates| {
      AttemptCalls(env, s, candidates[i], now, base, uri);
    }
  }

  /** Attempts at other candidates make a call for a record exactly if one of them comes to it and finds its references. */
  lemma {:induction false} OthersCall(env: Env, candidates: seq<Message>, s: Site, order: seq<int>, now: int, base: nat, uri: string)
    requires PublisherOk(env) && AnswersAsAsked(env) && Keyed(s.w.rows) && Says(s.w, base, uri) && Others(candidates, order, uri)
    ensures CalledNow(s.w, Ran(BatchOf(env, candidates, now), s, order).w, uri, SentAlong(env, candidates, s, order, now, uri))
    decreases |order|
  {
    if order != [] {
      var b, m := BatchOf(env, candidates, now), |order| - 1;
      OthersKeep(env, candidates, s, order[..m], now, base, uri);
      OthersCall(env, candidates, s, order[..m], now, base, uri);
      RanOneMore(b, s, order);
      StepCalls(env, candidates, Ran(b, s, order[..m]), order[m], now, base, uri);
    }
  }

  /**
   A pass sends a candidate twice if and only if its stored record maps, an attempt before its own came to it
   with its references found, and its own can send it or one after it comes to it so.
   */
  lemma SentTwiceIff(env: Env, candidates: seq<Message>, site: Site, now: int, k: nat)
    requires PublisherOk(env) && AnswersAsAsked(env) && DistinctUris(candidates) && Republishing.Waiting(site.w.rows, candidates) && k < |candidates|
    ensures var order := PassOf(env, candidates, site, now).order;
      var c, s := candidates[order[k]], Before(env, candidates, site, now, k);
      var a := Again(env, s, c, now);
      SendsOf(PassOf(env, candidates, site, now).site.w.sent, c.uri) >= SendsOf(site.w.sent, c.uri) + 2 <==>
        && MappedAgain(env, c).Some?
        && SentAlong(env, candidates, site, order[..k], now, c.uri)
        && (CanBeSent(env, s, a, c) || SentAlong(env, candidates, a.site, order[k + 1..], now, c.uri))
  {
    var order := PassOf(env, candidates, site, now).order;
    var c, s := candidates[order[k]], Before(env, candidates, site, now, k);
    AroundAttempt(env, candidates, site, now, k);
    SentAtMostTwice(env, candidates, site, now, k);
    assert c in candidates;
    EarlierCall(env, candidates, site, now, c, s, order[..k]);
    if MappedAgain(env, c).Some? {
      LaterCall(env, candidates, s, now, c, order[k + 1..], SendsOf(site.w.sent, c.uri));
    }
  }

  lemma EarlierCall(env: Env, candidates: seq<Message>, site: Site, now: int, c: Message, s: Site, earlier: seq<int>)
    requires PublisherOk(env) && AnswersAsAsked(env) && Republishing.Waiting(site.w.rows, candidates) && c in candidates
    requires Others(candidates, earlier, c.uri) && s == Ran(BatchOf(env, candidates, now), site, earlier)
    ensures Keyed(s.w.rows) && Says(s.w, SendsOf(site.w.sent, c.uri), c.uri)
    ensures Called(s.w.rows[c.uri]) <==> SentAlong(env, candidates, site, earlier, now, c.uri)
  {
    OthersKeep(env, candidates, site, earlier, now, SendsOf(site.w.sent, c.uri), c.uri);
    OthersCall(env, candidates, site, earlier, now, SendsOf(site.w.sent, c.uri), c.uri);
  }

  lemma LaterCall(env: Env, candidates: seq<Message>, s: Site, now: int, c: Message, later: seq<int>, base: nat)
    requires PublisherOk(env) && AnswersAsAsked(env) && Keyed(s.w.rows) && Says(s.w, base, c.uri)
    requires MappedAgain(env, c).Some? && Others(candidates, later, c.uri)
    ensures var a := Again(env, s, c, now);
      var end := Ran(BatchOf(env, candidates, now), a.site, later);
      c.uri in end.w.rows &&
        (Called(end.w.rows[c.uri]) <==> CanBeSent(env, s, a, c) || SentAlong(env, candidates, a.site, later, now, c.uri))
  {
    OwnAttempt(env, s, c, now, base);
    OthersCall(env, candidates, Again(env, s, c, now).site, later, now, SendsOf(s.w.sent, c.uri), c.uri);
  }
}
