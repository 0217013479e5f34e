/**
 What processing a record comes to: what it refers to is asked for first, from the rows or from the hosts, and its own
 message is then decided with all that the table has learned.

 The module states this from the tables and the answers of the hosts, for records, for deferred messages attempted again
 and for deletions.
 */
module Providing {
  import opened Wrappers
  import opened Text
  import opened Mapper
  import opened Messages
  import opened Lifecycle
  import opened Processor
  import opened LateReferences
  import opened RecordFields

  // ---------------------------------------------------------------- what a root asks for

  /** A root only goes on: it has asked for more, fetched more and processed more. */
  ghost predicate GoesOn(sc: Scene, after: Scene) {
    sc.visited <= after.visited && sc.processed <= after.processed && sc.fetched <= after.fetched && sc.fetches <= after.fetches
  }

  lemma {:induction false} ProcessingGoesOn(env: Env, sc: Scene, depth: nat, record: Fetched, now: int)
    requires depth <= MAX_DEPTH
    ensures GoesOn(sc, Processed(env, sc, depth, record, now))
    decreases MAX_DEPTH - depth, 3, 0
  {
    if MappedRecord(env, record).Some? {
      HydratingGoesOn(env, sc, depth, MappedRecord(env, record).value, now);
    }
  }

  lemma {:induction false} HydratingGoesOn(env: Env, sc: Scene, depth: nat, content: Content, now: int)
    requires depth <= MAX_DEPTH
    ensures GoesOn(sc, Hydrated(env, sc, depth, content, now))
    decreases MAX_DEPTH - depth, 2, 0
  {
    if env.fetcher.Some? {
      var uris := Dependencies(Resolved(env, sc.w.rows, content));
      EnsuringAllGoesOn(env, sc, depth, uris, |uris|, now);
    }
  }

  lemma {:induction false} EnsuringAllGoesOn(env: Env, sc: Scene, depth: nat, uris: seq<string>, n: nat, now: int)
    requires depth <= MAX_DEPTH && n <= |uris| && env.fetcher.Some?
    ensures GoesOn(sc, EnsuredAll(env, sc, depth, uris, n, now))
    decreases MAX_DEPTH - depth, 1, n
  {
    if n > 0 {
      EnsuringAllGoesOn(env, sc, depth, uris, n - 1, now);
      EnsuringGoesOn(env, EnsuredAll(env, sc, depth, uris, n - 1, now), depth, uris[n - 1], now);
    }
  }

  lemma {:induction false} EnsuringGoesOn(env: Env, sc: Scene, depth: nat, name: string, now: int)
    requires depth <= MAX_DEPTH && env.fetcher.Some?
    ensures GoesOn(sc, Ensured(env, sc, depth, name, now))
    decreases MAX_DEPTH - depth, 0, 0
  {
    if Ensured(env, sc, depth, name, now) != sc {
      var from, record := EnsuringProvides(env, sc, depth, name, now);
      if Processes(env, sc, depth, name) {
        ProcessingGoesOn(env, from, depth + 1, record, now);
      }
    }
  }

  // ---------------------------------------------------------------- how a record is made available

  /** The record is asked for the first time, and not too deep. */
  predicate First(sc: Scene, depth: nat, name: string) {
    !Blank(name) && depth < 16 && Trim(name) !in sc.visited
  }

  /** The record waits in its row, with all that is needed to process it again. */
  predicate Waits(rows: Rows, uri: string) {
    && uri in rows && Blank(rows[uri].ref) && (rows[uri].state.DeferredState? || rows[uri].state.PendingState?)
    && !Blank(rows[uri].rawAt) && !rows[uri].collection.Unsupported?
  }

  /** The record has a reference, or was given up. */
  predicate Settled(rows: Rows, uri: string) {
    uri in rows && (!Blank(rows[uri].ref) || rows[uri].state.FailedState?)
  }

  /** The host of a record is asked for it: at most 256 times by one root. */
  predicate AsksHost(sc: Scene, uri: string) {
    !Settled(sc.w.rows, uri) && !Waits(sc.w.rows, uri) && sc.fetched < 256
  }

  /** The host gives a record of a supported type. */
  predicate HostGives(env: Env, sc: Scene, uri: string)
    requires env.fetcher.Some?
  {
    var answer := env.fetcher.value(sc.fetches + 1, uri);
    answer.Ok? && !answer.value.collection.Unsupported?
  }

  predicate Processes(env: Env, sc: Scene, depth: nat, name: string)
    requires env.fetcher.Some?
  {
    First(sc, depth, name) && (Waits(sc.w.rows, Trim(name)) || (AsksHost(sc, Trim(name)) && HostGives(env, sc, Trim(name))))
  }

  /** The record that is processed: what the row stores, or what the host gave. */
  predicate IsProvided(env: Env, sc: Scene, uri: string, record: Fetched)
    requires env.fetcher.Some?
  {
    if Waits(sc.w.rows, uri) then IsRowFor(sc.w.rows[uri], record) else env.fetcher.value(sc.fetches + 1, uri) == Ok(record)
  }

  /** A record of which nothing but the name is known. */
  function Unnamed(uri: string): Fetched {
    Fetched(uri, uri, uri, Unsupported(uri), uri)
  }

  /** What the root makes of asking for a record, up to the processing of what it gets. */
  predicate Asking(env: Env, sc: Scene, depth: nat, name: string, from: Scene)
    requires env.fetcher.Some?
  {
    var uri := Trim(name);
    var asked := if AsksHost(sc, uri) then 1 else 0;
    && from.w == sc.w && from.visited == sc.visited + {uri} && from.fetched == sc.fetched + asked && from.fetches == sc.fetches + asked
    && from.processed == if Processes(env, sc, depth, name) then sc.processed + [uri] else sc.processed
  }

  ghost predicate IsProcessed(env: Env, from: Scene, depth: nat, record: Fetched, now: int, after: Scene)
    requires depth < MAX_DEPTH
  {
    after == Processed(env, from, depth + 1, record, now)
  }

  /** What came of asking the host of a record. */
  ghost predicate Answered(env: Env, sc: Scene, depth: nat, uri: string, from: Scene, record: Fetched, after: Scene, now: int)
    requires env.fetcher.Some? && depth < MAX_DEPTH
  {
    var asked := if sc.fetched < 256 then 1 else 0;
    && from.w == sc.w && from.visited == sc.visited && from.fetched == sc.fetched + asked && from.fetches == sc.fetches + asked
    && (if AsksHost(sc, uri) && HostGives(env, sc, uri)
        then from.processed == sc.processed + [uri] && env.fetcher.value(sc.fetches + 1, uri) == Ok(record)
             && IsProcessed(env, from, depth, record, now, after)
        else from.processed == sc.processed && after == from)
  }

  lemma AskedIs(env: Env, sc: Scene, depth: nat, uri: string, now: int) returns (from: Scene, record: Fetched)
    requires env.fetcher.Some? && depth < MAX_DEPTH && !Settled(sc.w.rows, uri) && !Waits(sc.w.rows, uri)
    ensures Answered(env, sc, depth, uri, from, record, Requested(env, sc, depth, uri, now), now)
  {
    var (next, answer) := Asked(env, sc, uri);
    from, record := next, Unnamed(uri);
    match answer
    case Err(_) =>
    case Ok(given) =>
      from, record := next.(processed := sc.processed + [uri]), given;
      assert Reprocessed(env, next, depth, uri, given, now) == Processed(env, from, depth + 1, record, now);
  }

  lemma FirstIsProvided(env: Env, sc: Scene, depth: nat, name: string, now: int)
    requires env.fetcher.Some? && depth < MAX_DEPTH && First(sc, depth, name)
    ensures Ensured(env, sc, depth, name, now) == Provided(env, sc.(visited := sc.visited + {Trim(name)}), depth, Trim(name), now)
  {
  }

  lemma WaitingIsProcessed(env: Env, sc: Scene, depth: nat, uri: string, now: int)
    requires env.fetcher.Some? && depth < MAX_DEPTH && Waits(sc.w.rows, uri)
    ensures Provided(env, sc, depth, uri, now) == Reprocessed(env, sc, depth, uri, RecordOf(sc.w.rows[uri]), now)
  {
  }

  lemma ReprocessedIsProcessed(env: Env, sc: Scene, depth: nat, uri: string, record: Fetched, now: int)
    requires depth < MAX_DEPTH
    ensures Reprocessed(env, sc, depth, uri, record, now) == Processed(env, sc.(processed := sc.processed + [uri]), depth + 1, record, now)
  {
  }

  lemma SettledIsLeft(env: Env, sc: Scene, depth: nat, uri: string, now: int)
    requires env.fetcher.Some? && depth < MAX_DEPTH && Settled(sc.w.rows, uri) && !Waits(sc.w.rows, uri)
    ensures Provided(env, sc, depth, uri, now) == sc
  {
  }

  lemma OthersAreRequested(env: Env, sc: Scene, depth: nat, uri: string, now: int)
    requires env.fetcher.Some? && depth < MAX_DEPTH && !Settled(sc.w.rows, uri) && !Waits(sc.w.rows, uri)
    ensures Provided(env, sc, depth, uri, now) == Requested(env, sc, depth, uri, now)
  {
  }

  /** What came of asking for a record the first time. */
  ghost predicate Came(env: Env, sc: Scene, depth: nat, name: string, from: Scene, record: Fetched, after: Scene, now: int)
    requires env.fetcher.Some? && depth < MAX_DEPTH
  {
    && Asking(env, sc, depth, name, from)
    && (if Processes(env, sc, depth, name)
        then IsProvided(env, sc, Trim(name), record) && IsProcessed(env, from, depth, record, now, after)
        else after == from)
  }

  lemma WaitingComes(env: Env, sc: Scene, depth: nat, name: string, now: int)
    requires env.fetcher.Some? && depth < MAX_DEPTH && First(sc, depth, name) && Waits(sc.w.rows, Trim(name))
    ensures var uri := Trim(name);
      Came(env, sc, depth, name, sc.(visited := sc.visited + {uri}, processed := sc.processed + [uri]), RecordOf(sc.w.rows[uri]),
        Ensured(env, sc, depth, name, now), now)
  {
    var noted := sc.(visited := sc.visited + {Trim(name)});
    FirstIsProvided(env, sc, depth, name, now);
    WaitingIsProcessed(env, noted, depth, Trim(name), now);
    ReprocessedIsProcessed(env, noted, depth, Trim(name), RecordOf(sc.w.rows[Trim(name)]), now);
  }

  lemma SettledComes(env: Env, sc: Scene, depth: nat, name: string, record: Fetched, now: int)
    requires env.fetcher.Some? && depth < MAX_DEPTH && First(sc, depth, name)
    requires Settled(sc.w.rows, Trim(name)) && !Waits(sc.w.rows, Trim(name))
    ensures Came(env, sc, depth, name, sc.(visited := sc.visited + {Trim(name)}), record, Ensured(env, sc, depth, name, now), now)
  {
    FirstIsProvided(env, sc, depth, name, now);
    SettledIsLeft(env, sc.(visited := sc.visited + {Trim(name)}), depth, Trim(name), now);
  }

  /** Noting that it was asked for changes nothing in what its host is asked. */
  lemma AnsweredComes(env: Env, sc: Scene, noted: Scene, depth: nat, name: string, from: Scene, record: Fetched, after: Scene, now: int)
    requires env.fetcher.Some? && depth < MAX_DEPTH && First(sc, depth, name) && noted == sc.(visited := sc.visited + {Trim(name)})
    requires !Settled(sc.w.rows, Trim(name)) && !Waits(sc.w.rows, Trim(name))
    requires Answered(env, noted, depth, Trim(name), from, record, after, now)
    ensures Came(env, sc, depth, name, from, record, after, now)
  {
    assert AsksHost(noted, Trim(name)) == AsksHost(sc, Trim(name)) && HostGives(env, noted, Trim(name)) == HostGives(env, sc, Trim(name));
    assert Processes(env, sc, depth, name) == (AsksHost(sc, Trim(name)) && HostGives(env, sc, Trim(name)));
    assert Asking(env, sc, depth, name, from);
  }

  lemma OthersCome(env: Env, sc: Scene, depth: nat, name: string, now: int) returns (from: Scene, record: Fetched)
    requires env.fetcher.Some? && depth < MAX_DEPTH && First(sc, depth, name)
    requires !Settled(sc.w.rows, Trim(name)) && !Waits(sc.w.rows, Trim(name))
    ensures Came(env, sc, depth, name, from, record, Ensured(env, sc, depth, name, now), now)
  {
    var noted := sc.(visited := sc.visited + {Trim(name)});
    FirstIsProvided(env, sc, depth, name, now);
    OthersAreRequested(env, noted, depth, Trim(name), now);
    from, record := AskedIs(env, noted, depth, Trim(name), now);
    AnsweredComes(env, sc, noted, depth, name, from, record, Requested(env, noted, depth, Trim(name), now), now);
  }

  /**
   Making a record available notes that it was asked for. It processes the record, one level deeper and in the same
   tables, exactly if it waits in its row, or else is neither bridged nor given up and its host gives it; each host asked
   counts. Otherwise no table changes.
   */
  lemma EnsuringProvides(env: Env, sc: Scene, depth: nat, name: string, now: int) returns (from: Scene, record: Fetched)
    requires env.fetcher.Some? && depth <= MAX_DEPTH
    ensures var after := Ensured(env, sc, depth, name, now);
      if First(sc, depth, name) then Came(env, sc, depth, name, from, record, after, now) else after == sc
  {
    var uri := Trim(name);
    from, record := sc, Unnamed(uri);
    if First(sc, depth, name) {
      if Waits(sc.w.rows, uri) {
        from, record := sc.(visited := sc.visited + {uri}, processed := sc.processed + [uri]), RecordOf(sc.w.rows[uri]);
        WaitingComes(env, sc, depth, name, now);
      } else if Settled(sc.w.rows, uri) {
        from := sc.(visited := sc.visited + {uri});
        SettledComes(env, sc, depth, name, record, now);
      } else {
        from, record := OthersCome(env, sc, depth, name, now);
      }
    }
  }

  // ---------------------------------------------------------------- everything a message refers to

  /** A message refers to a record that the table does not resolve, as a thread, a subject or a quote. */
  predicate Awaits(resolved: Content, uri: string) {
    exists field <- resolved :: Awaitable(field) && Pending(resolved, field) && uri == Trim(Printed(resolved[field]))
  }

  lemma AwaitedIsNamed(resolved: Content, uri: string)
    requires Awaits(resolved, uri)
    ensures uri in Dependencies(resolved) && !Blank(uri) && Trim(uri) == uri
  {
    DependenciesAre(resolved, uri);
    var field :| field in resolved && Awaitable(field) && Pending(resolved, field) && uri == Trim(Printed(resolved[field]));
    TrimTwice(Printed(resolved[field]));
  }

  lemma AskedIsVisited(env: Env, sc: Scene, depth: nat, name: string, now: int)
    requires depth < MAX_DEPTH && env.fetcher.Some? && !Blank(name)
    ensures Trim(name) in Ensured(env, sc, depth, name, now).visited
  {
    if First(sc, depth, name) {
      var from, record := EnsuringProvides(env, sc, depth, name, now);
      if Processes(env, sc, depth, name) {
        ProcessingGoesOn(env, from, depth + 1, record, now);
      }
    }
  }

  lemma EnsuredLast(env: Env, sc: Scene, depth: nat, uris: seq<string>, n: nat, now: int, so: Scene)
    requires depth < MAX_DEPTH && 0 < n <= |uris| && env.fetcher.Some? && so == EnsuredAll(env, sc, depth, uris, n - 1, now)
    ensures EnsuredAll(env, sc, depth, uris, n, now) == Ensured(env, so, depth, uris[n - 1], now)
  {
  }

  lemma {:induction false} AllAreAsked(env: Env, sc: Scene, depth: nat, uris: seq<string>, n: nat, now: int, i: nat)
    requires depth < MAX_DEPTH && i < n <= |uris| && env.fetcher.Some? && !Blank(uris[i])
    ensures Trim(uris[i]) in EnsuredAll(env, sc, depth, uris, n, now).visited
  {
    var so := EnsuredAll(env, sc, depth, uris, n - 1, now);
    EnsuredLast(env, sc, depth, uris, n, now, so);
    if i < n - 1 {
      AllAreAsked(env, sc, depth, uris, n - 1, now, i);
      EnsuringGoesOn(env, so, depth, uris[n - 1], now);
    } else {
      AskedIsVisited(env, so, depth, uris[i], now);
    }
  }

  /** The root asked for everything that a message refers to and the table did not resolve. */
  ghost predicate AskedFor(resolved: Content, visited: set<string>) {
    forall uri | Awaits(resolved, uri) :: uri in visited
  }

  lemma HydrationAsksAll(env: Env, sc: Scene, depth: nat, content: Content, now: int)
    requires env.fetcher.Some? && depth < MAX_DEPTH
    ensures AskedFor(Resolved(env, sc.w.rows, content), Hydrated(env, sc, depth, content, now).visited)
  {
    var resolved := Resolved(env, sc.w.rows, content);
    var uris, after := Dependencies(resolved), Hydrated(env, sc, depth, content, now);
    forall uri | Awaits(resolved, uri) ensures uri in after.visited {
      AwaitedIsNamed(resolved, uri);
      var i :| 0 <= i < |uris| && uris[i] == uri;
      AllAreAsked(env, sc, depth, uris, |uris|, now, i);
    }
  }

  /** What a message refers to was asked for, by a root that went on from where it was. */
  ghost predicate Prepared(env: Env, sc: Scene, mid: Scene, depth: nat, mapped: Content) {
    && GoesOn(sc, mid) && (env.fetcher.None? ==> mid == sc)
    && (env.fetcher.Some? && depth < 16 ==> AskedFor(Resolved(env, sc.w.rows, mapped), mid.visited))
  }

  lemma HydratingPrepares(env: Env, sc: Scene, depth: nat, mapped: Content, now: int)
    requires depth <= MAX_DEPTH
    ensures Prepared(env, sc, Hydrated(env, sc, depth, mapped, now), depth, mapped)
  {
    HydratingGoesOn(env, sc, depth, mapped, now);
    if env.fetcher.Some? && depth < 16 {
      HydrationAsksAll(env, sc, depth, mapped, now);
    }
  }

  // ---------------------------------------------------------------- what a message is decided with

  /** What the table knew of a reference at first, or else knows later. */
  ghost predicate Learned(before: Rows, later: Rows, mapped: Content, from: Field, ref: string) {
    Knows(before, mapped, from, ref) || ((forall r :: !Knows(before, mapped, from, r)) && Knows(later, mapped, from, ref))
  }

  lemma RootStays(first: Content, f: Finds, resolved: Content, ref: string)
    requires f.root == "" && LeftIn(first, f, resolved, ReplyRootRef, RootField) && GaveWay(first, ReplyRootRef, RootField, "root", Words(ref))
    ensures GaveWay(resolved, ReplyRootRef, RootField, "root", Words(ref))
  {
  }

  lemma ParentStays(first: Content, f: Finds, resolved: Content, ref: string)
    requires f.parent == "" && LeftIn(first, f, resolved, ReplyParentRef, BranchField) && GaveWay(first, ReplyParentRef, BranchField, "branch", Words(ref))
    ensures GaveWay(resolved, ReplyParentRef, BranchField, "branch", Words(ref))
  {
  }

  lemma RepostStays(first: Content, f: Finds, resolved: Content, ref: string)
    requires f.repost == "" && LeftIn(first, f, resolved, RepostRef, RepostField) && GaveWay(first, RepostRef, RepostField, "repost", Words(ref))
    ensures GaveWay(resolved, RepostRef, RepostField, "repost", Words(ref))
  {
  }

  lemma ListStays(first: Content, f: Finds, resolved: Content, ref: string)
    requires f.list == "" && LeftIn(first, f, resolved, ListRef, ListField) && GaveWay(first, ListRef, ListField, "list", Words(ref))
    ensures GaveWay(resolved, ListRef, ListField, "list", Words(ref))
  {
  }

  lemma MissingIsNotFound(content: Content, uris: string -> string, feeds: string -> string, field: Field)
    requires Checked(field) && field !in content
    ensures FindOf(FindsOf(content, uris, feeds), field) == ""
  {
    FindIsFound(content, uris, feeds, field);
  }

  lemma FoundIsKept(env: Env, later: Rows, first: Content, from: Field, to: Field, name: string, ref: string)
    requires Stands(from, to, name) && GaveWay(first, from, to, name, Words(ref))
    ensures GaveWay(Resolved(env, later, first), from, to, name, Words(ref))
  {
    MissingIsNotFound(first, UriLookup(later), env.feeds, from);
    var f, resolved := ResolvedLeaves(env, later, first, from, to);
    match from
    case ReplyRootRef => RootStays(first, f, resolved, ref);
    case ReplyParentRef => ParentStays(first, f, resolved, ref);
    case RepostRef => RepostStays(first, f, resolved, ref);
    case ListRef => ListStays(first, f, resolved, ref);
  }

  lemma FoundLater(env: Env, before: Rows, later: Rows, mapped: Content, from: Field, to: Field, name: string, ref: string)
    requires Stands(from, to, name) && (forall r :: !Knows(before, mapped, from, r)) && Knows(later, mapped, from, ref)
    ensures GaveWay(Resolved(env, later, Resolved(env, before, mapped)), from, to, name, Words(ref))
  {
    var first := Resolved(env, before, mapped);
    UnknownStays(env, before, mapped, from);
    KnownRefsResolve(env, later, first, from, to, name, ref);
  }

  lemma UnknownStays(env: Env, before: Rows, mapped: Content, from: Field)
    requires Checked(from) && !from.ContactRef? && !from.AboutRef? && from in mapped && mapped[from].Words?
    requires forall r :: !Knows(before, mapped, from, r)
    ensures var first := Resolved(env, before, mapped); from in first && first[from] == mapped[from]
  {
    assert RefOf(before, mapped[from].text) != "" ==> Knows(before, mapped, from, RefOf(before, mapped[from].text));
    UnknownRefsStay(env, before, mapped, from);
  }

  lemma LearnedInTwo(env: Env, before: Rows, later: Rows, mapped: Content, from: Field, to: Field, name: string, ref: string)
    requires Stands(from, to, name) && Learned(before, later, mapped, from, ref)
    ensures GaveWay(Resolved(env, later, Resolved(env, before, mapped)), from, to, name, Words(ref))
  {
    if Knows(before, mapped, from, ref) {
      KnownRefsResolve(env, before, mapped, from, to, name, ref);
      FoundIsKept(env, later, Resolved(env, before, mapped), from, to, name, ref);
    } else {
      FoundLater(env, before, later, mapped, from, to, name, ref);
    }
  }

  /** A vote, linked to the message of its subject once the table has learned of it. */
  lemma SubjectIsLinked(env: Env, before: Rows, later: Rows, mapped: Content, ref: string)
    requires Learned(before, later, mapped, SubjectRef, ref) && VoteField in mapped && mapped[VoteField].Vote?
    ensures GaveWay(Resolved(env, later, Resolved(env, before, mapped)), SubjectRef, VoteField, "vote", mapped[VoteField].(link := Some(ref)))
  {
    var first := Resolved(env, before, mapped);
    if Knows(before, mapped, SubjectRef, ref) {
      KnownSubjectIsLinked(env, before, mapped, ref);
      MissingIsNotFound(first, UriLookup(later), env.feeds, SubjectRef);
      VoteStays(env, later, first);
    } else {
      UnknownStays(env, before, mapped, SubjectRef);
      SubjectStays(env, before, mapped);
      KnownSubjectIsLinked(env, later, first, ref);
    }
  }

  lemma VoteStays(env: Env, rows: Rows, content: Content)
    requires FindOf(FindsOf(content, UriLookup(rows), env.feeds), SubjectRef) == ""
    ensures var resolved := Resolved(env, rows, content);
      At(resolved, VoteField) == At(content, VoteField) && At(resolved, SubjectRef) == At(content, SubjectRef)
  {
    var f, resolved := ResolvedLeaves(env, rows, content, SubjectRef, VoteField);
    assert FindOf(f, SubjectRef) == "";
    NothingFoundStays(content, f, resolved);
  }

  lemma NothingFoundStays(content: Content, f: Finds, resolved: Content)
    requires FindOf(f, SubjectRef) == "" && LeftIn(content, f, resolved, SubjectRef, VoteField)
    ensures At(resolved, VoteField) == At(content, VoteField) && At(resolved, SubjectRef) == At(content, SubjectRef)
  {
  }

  lemma SubjectStays(env: Env, before: Rows, mapped: Content)
    requires VoteField in mapped && SubjectRef in mapped && mapped[SubjectRef].Words? && forall r :: !Knows(before, mapped, SubjectRef, r)
    ensures var first := Resolved(env, before, mapped); VoteField in first && first[VoteField] == mapped[VoteField]
  {
    assert RefOf(before, mapped[SubjectRef].text) != "" ==> Knows(before, mapped, SubjectRef, RefOf(before, mapped[SubjectRef].text));
    FindIsFound(mapped, UriLookup(before), env.feeds, SubjectRef);
    VoteStays(env, before, mapped);
    assert At(mapped, VoteField).Some?;
  }

  /** A message, with the references that the table has learned of by then in the fields that SSB has for them. */
  ghost predicate UsesRefs(before: Rows, later: Rows, mapped: Content, content: Content) {
    forall from, to, name, ref | Stands(from, to, name) && Learned(before, later, mapped, from, ref) ::
      GaveWay(content, from, to, name, Words(ref))
  }

  lemma ResolvedUsesRefs(env: Env, before: Rows, later: Rows, mapped: Content)
    ensures UsesRefs(before, later, mapped, Resolved(env, later, Resolved(env, before, mapped)))
  {
    forall from, to, name, ref | Stands(from, to, name) && Learned(before, later, mapped, from, ref)
      ensures GaveWay(Resolved(env, later, Resolved(env, before, mapped)), from, to, name, Words(ref))
    {
      LearnedInTwo(env, before, later, mapped, from, to, name, ref);
    }
  }

  /** Only the row of a record changed, and one write of it was noted. */
  ghost predicate Writes(w: World, after: World, uri: string) {
    && uri in after.rows && (forall other :: other != uri ==> (other in after.rows <==> other in w.rows))
    && (forall other <- w.rows :: other != uri ==> after.rows[other] == w.rows[other])
    && w.handled <= after.handled && |after.handled| == |w.handled| + 1
  }

  /** One call was made with a message, sanitized, exactly if it can be sent; if not, its row keeps it. */
  ghost predicate Calls(env: Env, w: World, after: World, uri: string, content: Content)
    requires uri in after.rows
  {
    && w.sent <= after.sent
    && (if Sends(env, content)
        then |after.sent| == |w.sent| + 1 && IsCallFor(after.sent[|w.sent|], after.rows[uri]) && after.sent[|w.sent|].content == Sanitized(content)
        else after.sent == w.sent && after.rows[uri].payload == Some(content))
  }

  /** A message decided on. */
  ghost predicate Decides(env: Env, w: World, after: World, uri: string, content: Content) {
    Writes(w, after, uri) && Calls(env, w, after, uri, content)
  }

  lemma UnsentKeepsPayload(env: Env, msg: Message, content: Content, blobError: Option<string>, n: nat, now: int)
    requires msg.payload == Some(content)
    ensures var d := Decide(env, msg, content, blobError, n, now);
      d.msg.uri == msg.uri && (!Sends(env, content) ==> d.sent == [] && d.msg.payload == Some(content))
  {
  }

  lemma FinishingDecides(env: Env, w: World, msg: Message, content: Content, blobError: Option<string>, version: Version, now: int)
    requires msg.payload == Some(content)
    ensures Decides(env, w, Finished(env, w, msg, content, blobError, version, now), msg.uri, content)
  {
    var after, d := Finished(env, w, msg, content, blobError, version, now), Decide(env, msg, content, blobError, |w.sent|, now);
    UnsentKeepsPayload(env, msg, content, blobError, |w.sent|, now);
    assert Writes(w, after, msg.uri);
    assert Calls(env, w, after, msg.uri, content) by {
      PublishedIsAnswer(env, msg, content, blobError, |w.sent|, now);
      DecidedSends(env, msg, content, blobError, |w.sent|, now);
    }
  }

  // ---------------------------------------------------------------- records, attempts and deletions

  /**
   Processing a record that maps, and was not bridged in this version before, first asks for all that it refers to and the
   table does not resolve; then its own message is decided, in the table that this leaves, with all references learned.
   Any other record changes nothing.
   */
  lemma ProcessingDecides(env: Env, sc: Scene, depth: nat, record: Fetched, now: int) returns (mid: Scene, content: Content)
    requires depth <= MAX_DEPTH
    ensures var mapped, after := MapRecord(env.codec, record.collection, record.did, record.json), Processed(env, sc, depth, record, now);
      if mapped.None? || Duplicate(sc.w.rows, record.uri, record.cid) then after == sc
      else
        && Prepared(env, sc, mid, depth, mapped.value)
        && UsesRefs(sc.w.rows, mid.w.rows, mapped.value, content)
        && after == mid.(w := after.w) && Decides(env, mid.w, after.w, record.uri, content) && IsRowFor(after.w.rows[record.uri], record)
  {
    var mapped := MappedRecord(env, record);
    mid, content := sc, map[];
    if mapped.Some? && !Duplicate(sc.w.rows, record.uri, record.cid) {
      HydratingPrepares(env, sc, depth, mapped.value, now);
      mid := Hydrated(env, sc, depth, mapped.value, now);
      content := Resolved(env, mid.w.rows, Resolved(env, sc.w.rows, mapped.value));
      ResolvedUsesRefs(env, sc.w.rows, mid.w.rows, mapped.value);
      RecordIsDecided(env, mid.w, record, content, now);
    }
  }

  lemma RecordIsDecided(env: Env, mid: World, record: Fetched, content: Content, now: int)
    ensures var after := RecordFinished(env, mid, record, content, now);
      Decides(env, mid, after, record.uri, content) && IsRowFor(after.rows[record.uri], record)
  {
    FinishingDecides(env, mid, NewRow(record, content), content, env.blobs(record.uri), Version(record.uri, Trim(record.cid)), now);
    RecordRowIs(env, mid, record, content, now);
  }

  /** The message that a deferred row stands for: of its record, or what undoes the record once that is deleted. */
  function MessageOf(env: Env, candidate: Message): Option<Content> {
    if candidate.deletedAt.Some? then MapDelete(env.codec, candidate.collection, candidate.did, candidate.rawAt)
    else MapRecord(env.codec, candidate.collection, candidate.did, candidate.rawAt)
  }

  /** The row is that of the candidate, with what it says of a deletion. */
  predicate IsAttemptOf(row: Message, candidate: Message) {
    && row.uri == candidate.uri && row.cid == candidate.cid && row.did == candidate.did && row.collection == candidate.collection
    && row.rawAt == candidate.rawAt && row.deletedAt == candidate.deletedAt && row.deletedSeq == candidate.deletedSeq
    && row.deletedReason == candidate.deletedReason
  }

  /** An attempt at a deferred message does with it, and with what it refers to, what processing does with a record, as a root. */
  lemma AttemptDecides(env: Env, s: Site, candidate: Message, now: int) returns (mid: Scene, content: Content)
    ensures var mapped, a := MessageOf(env, candidate), Again(env, s, candidate, now);
      if mapped.None? then a.site == s && a.state == FailedState
      else
        && Prepared(env, Entering(s.w, s.fetches, candidate.uri), mid, 0, mapped.value)
        && UsesRefs(s.w.rows, mid.w.rows, mapped.value, content)
        && a.site.fetches == mid.fetches && Decides(env, mid.w, a.site.w, candidate.uri, content)
        && IsAttemptOf(a.site.w.rows[candidate.uri], candidate) && a.state == a.site.w.rows[candidate.uri].state
  {
    var mapped, root := MessageOf(env, candidate), Entering(s.w, s.fetches, candidate.uri);
    mid, content := root, map[];
    if mapped.Some? {
      HydratingPrepares(env, root, 0, mapped.value, now);
      mid := Hydrated(env, root, 0, mapped.value, now);
      content := Resolved(env, mid.w.rows, Resolved(env, s.w.rows, mapped.value));
      ResolvedUsesRefs(env, s.w.rows, mid.w.rows, mapped.value);
      AttemptIs(env, s, candidate, mapped.value, mid, content, now);
      AttemptIsDecided(env, Site(mid.w, mid.fetches), candidate, content, now);
    }
  }

  lemma AttemptIs(env: Env, s: Site, candidate: Message, mapped: Content, mid: Scene, content: Content, now: int)
    requires MessageOf(env, candidate) == Some(mapped) && mid == Hydrated(env, Entering(s.w, s.fetches, candidate.uri), 0, mapped, now)
    requires content == Resolved(env, mid.w.rows, Resolved(env, s.w.rows, mapped))
    ensures Again(env, s, candidate, now) == AgainDone(env, Site(mid.w, mid.fetches), candidate, content, now)
  {
  }

  lemma AttemptIsDecided(env: Env, mid: Site, candidate: Message, content: Content, now: int)
    ensures var a := AgainDone(env, mid, candidate, content, now);
      && a.site.fetches == mid.fetches && Decides(env, mid.w, a.site.w, candidate.uri, content)
      && IsAttemptOf(a.site.w.rows[candidate.uri], candidate) && a.state == a.site.w.rows[candidate.uri].state
  {
    var row, blobError := DeferredRow(candidate, content, now), BlobErrorOf(env, candidate);
    FinishingDecides(env, mid.w, row, content, blobError, Rewrite(candidate.uri), now);
    DecisionIsAttempt(env, row, content, blobError, |mid.w.sent|, now);
  }

  lemma DispatchIsAttempt(env: Env, row: Message, content: Content, blobError: Option<string>, n: nat, now: int)
    requires env.publisher.Some?
    ensures var msg := Dispatch(env, row, content, blobError, n, now).msg; IsAttemptOf(msg, row) && !msg.state.NoState?
  {
  }

  lemma DecisionIsAttempt(env: Env, row: Message, content: Content, blobError: Option<string>, n: nat, now: int)
    ensures var msg := Decide(env, row, content, blobError, n, now).msg; IsAttemptOf(msg, row) && !msg.state.NoState?
  {
    if Sends(env, content) {
      DispatchIsAttempt(env, row, Sanitized(content), blobError, n, now);
    }
  }

  /** Some records are made available one after the other, each by a root of its own. */
  ghost predicate AskedInTurn(env: Env, before: Site, uris: seq<string>, sites: seq<Site>, now: int)
    requires env.fetcher.Some?
  {
    && |sites| == |uris| + 1 && sites[0] == before
    && forall i :: 0 <= i < |uris| ==> IsAsked(env, sites[i], uris[i], sites[i + 1], now)
  }

  predicate IsAsked(env: Env, s: Site, uri: string, after: Site, now: int)
    requires env.fetcher.Some?
  {
    var sc := Ensured(env, Entering(s.w, s.fetches, ""), 0, uri, now);
    after == Site(sc.w, sc.fetches)
  }

  /** What undoes a record refers to was asked for, in turn. */
  ghost predicate PreparedAlone(env: Env, before: Site, undone: Content, sites: seq<Site>, now: int) {
    sites != [] && if env.fetcher.None? then sites == [before]
    else exists uris :: AskedInTurn(env, before, uris, sites, now) && forall uri | Awaits(Resolved(env, before.w.rows, undone), uri) :: uri in uris
  }

  /** The sites that asking for the records leaves, one after the other. */
  function SitesOf(env: Env, before: Site, uris: seq<string>, now: int): (sites: seq<Site>)
    requires env.fetcher.Some?
    ensures |sites| == |uris| + 1 && forall i :: 0 <= i <= |uris| ==> sites[i] == EnsuredAlone(env, before, uris, i, now)
  {
    seq(|uris| + 1, i requires 0 <= i <= |uris| => EnsuredAlone(env, before, uris, i, now))
  }

  lemma AskedOneMore(env: Env, before: Site, uris: seq<string>, i: nat, now: int)
    requires env.fetcher.Some? && i < |uris|
    ensures IsAsked(env, EnsuredAlone(env, before, uris, i, now), uris[i], EnsuredAlone(env, before, uris, i + 1, now), now)
  {
  }

  lemma AloneIsInTurn(env: Env, before: Site, uris: seq<string>, now: int)
    requires env.fetcher.Some?
    ensures AskedInTurn(env, before, uris, SitesOf(env, before, uris, now), now)
  {
    var sites := SitesOf(env, before, uris, now);
    assert sites[0] == EnsuredAlone(env, before, uris, 0, now);
    forall i | 0 <= i < |uris| ensures IsAsked(env, sites[i], uris[i], sites[i + 1], now) {
      AskedOneMore(env, before, uris, i, now);
    }
  }

  lemma AllNamed(resolved: Content)
    ensures forall uri | Awaits(resolved, uri) :: uri in Dependencies(resolved)
  {
    forall uri | Awaits(resolved, uri) ensures uri in Dependencies(resolved) {
      AwaitedIsNamed(resolved, uri);
    }
  }

  lemma DeletionPrepares(env: Env, before: Site, undone: Content, now: int) returns (sites: seq<Site>)
    ensures PreparedAlone(env, before, undone, sites, now)
    ensures sites[|sites| - 1] == HydratedAlone(env, before, Resolved(env, before.w.rows, undone), now)
  {
    var first := Resolved(env, before.w.rows, undone);
    var uris := Dependencies(first);
    sites := [before];
    if env.fetcher.Some? {
      sites := SitesOf(env, before, uris, now);
      AloneIsInTurn(env, before, uris, now);
      AllNamed(first);
    }
  }

  /** The row is deleted, and nothing was sent. */
  ghost predicate IsMarked(before: World, after: World, row: Message) {
    && Writes(before, after, row.uri) && after.sent == before.sent
    && IsAttemptOf(after.rows[row.uri], row) && after.rows[row.uri].state == DeletedState && after.rows[row.uri].ref == ""
  }

  /**
   A deletion marks the row of a record that cannot be undone. For any other it decides on the message that undoes it,
   with all references learned, once what this refers to was asked for; if there is no such message, nothing changes.
   */
  lemma DeletionDecides(env: Env, before: Site, event: RecordEvent, now: int) returns (sites: seq<Site>, content: Content)
    ensures var row, after := RowOfDeletion(before.w.rows, event, now), DeletionHandled(env, before, event, now);
      var undone := MapDelete(env.codec, row.collection, row.did, row.rawAt);
      if OnlyMarked(row) then after.fetches == before.fetches && IsMarked(before.w, after.w, row)
      else if undone.None? then after == before
      else
        && PreparedAlone(env, before, undone.value, sites, now)
        && var mid := sites[|sites| - 1];
          && UsesRefs(before.w.rows, mid.w.rows, undone.value, content) && after.fetches == mid.fetches
          && Decides(env, mid.w, after.w, row.uri, content) && IsAttemptOf(after.w.rows[row.uri], row)
  {
    var row := RowOfDeletion(before.w.rows, event, now);
    var undone := MapDelete(env.codec, row.collection, row.did, row.rawAt);
    sites, content := [before], map[];
    if OnlyMarked(row) {
      MarkedIs(before.w, row, now);
    } else if undone.Some? {
      sites := DeletionPrepares(env, before, undone.value, now);
      var mid := sites[|sites| - 1];
      content := Resolved(env, mid.w.rows, Resolved(env, before.w.rows, undone.value));
      ResolvedUsesRefs(env, before.w.rows, mid.w.rows, undone.value);
      UndoingIsDecided(env, mid.w, row, content, now);
    }
  }

  lemma MarkedIs(w: World, row: Message, now: int)
    requires row.state == DeletedState && row.ref == ""
    ensures IsMarked(w, World(Upsert(w.rows, row, now), w.sent, w.handled + [Rewrite(row.uri)]), row)
  {
  }

  lemma UndoingIsDecided(env: Env, mid: World, row: Message, content: Content, now: int)
    ensures var after := Finished(env, mid, row.(payload := Some(content)), content, None, Rewrite(row.uri), now);
      Decides(env, mid, after, row.uri, content) && IsAttemptOf(after.rows[row.uri], row)
  {
    FinishingDecides(env, mid, row.(payload := Some(content)), content, None, Rewrite(row.uri), now);
    DecisionIsAttempt(env, row.(payload := Some(content)), content, None, |mid.sent|, now);
  }
}
