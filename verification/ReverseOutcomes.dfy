/**
 What becomes of a message of the receive log that is not carried out, and what its event and its row keep of one that is.

 The module states both from the message, the tables and the answers of the host.
 */
module ReverseOutcomes {
  import opened Wrappers
  import opened Text
  import opened RichText
  import opened Mapper
  import opened Messages
  import opened ReverseEvents
  import opened ReverseSync
  import opened ReverseRecords

  // ---------------------------------------------------------------- nothing asked, or refused

  /** A message that asks for nothing: of another kind, or a vote that is not positive. */
  predicate Silent(content: Ssb) {
    || content.kind.OtherKind?
    || (content.kind.VoteKind? && (content.vote.None? || content.vote.value.value <= 0.0))
  }

  /** A message asks for something that its mapping does not allow or that is never carried over, and why. */
  predicate Refused(mapping: Mapping, author: string, content: Ssb, reason: string) {
    match content.kind
    case PostKind =>
      if InThread(content) then !mapping.replies && reason == "action_disabled=reply" else !mapping.posts && reason == "action_disabled=post"
    case RepostKind =>
      if Blank(Reposted(content)) then reason == "missing_repost_target" else !mapping.posts && reason == "action_disabled=post"
    case VoteKind =>
      && content.vote.Some? && content.vote.value.value > 0.0
      && (if Blank(content.vote.value.link) then reason == "missing_vote_target" else !mapping.posts && reason == "action_disabled=like")
    case AboutKind => (Blank(content.about) || Trim(content.about) != author) && reason == "about_not_self"
    case ContactKind =>
      && !Blank(content.contact)
      && (if content.blocking then reason == "unsupported_contact_block" else !mapping.follows && reason == "action_disabled=follow")
    case OtherKind => false
  }

  predicate IsSkipped(built: Built, reason: string) {
    built.Asks? && built.event.state.Skipped? && built.event.reason == reason
  }

  lemma PostIsSkippedIff(lookups: Lookups, rows: Rows, m: Incoming, mapping: Mapping, content: Ssb, reason: string)
    requires content.kind.PostKind?
    ensures IsSkipped(BuildPost(lookups, rows, m, mapping, content), reason) <==> Refused(mapping, m.author, content, reason)
  {
    ThreadIsNamed(content);
  }

  lemma RepostIsSkippedIff(lookups: Lookups, rows: Rows, m: Incoming, mapping: Mapping, content: Ssb, reason: string)
    requires content.kind.RepostKind?
    ensures IsSkipped(BuildRepost(lookups, rows, m, mapping, content), reason) <==> Refused(mapping, m.author, content, reason)
  {
  }

  lemma VoteIsSkippedIff(lookups: Lookups, rows: Rows, m: Incoming, mapping: Mapping, content: Ssb, reason: string)
    requires content.kind.VoteKind?
    ensures IsSkipped(BuildVote(lookups, rows, m, mapping, content), reason) <==> Refused(mapping, m.author, content, reason)
  {
  }

  lemma AboutIsSkippedIff(m: Incoming, mapping: Mapping, content: Ssb, reason: string)
    requires content.kind.AboutKind?
    ensures IsSkipped(BuildAbout(m, mapping, content), reason) <==> Refused(mapping, m.author, content, reason)
  {
  }

  lemma ContactIsSkippedIff(lookups: Lookups, events: Events, m: Incoming, mapping: Mapping, content: Ssb, didOf: string -> Option<string>, reason: string)
    requires content.kind.ContactKind?
    ensures IsSkipped(BuildContact(lookups, events, m, mapping, content, didOf), reason) <==> Refused(mapping, m.author, content, reason)
  {
  }

  /** A message is skipped exactly if it is refused, and for that reason. */
  lemma SkippedIff(lookups: Lookups, events: Events, rows: Rows, m: Incoming, mapping: Mapping, content: Ssb,
                   didOf: string -> Option<string>, reason: string)
    ensures IsSkipped(Build(lookups, events, rows, m, mapping, content, didOf), reason) <==> Refused(mapping, m.author, content, reason)
  {
    match content.kind
    case PostKind => PostIsSkippedIff(lookups, rows, m, mapping, content, reason);
    case RepostKind => RepostIsSkippedIff(lookups, rows, m, mapping, content, reason);
    case VoteKind => VoteIsSkippedIff(lookups, rows, m, mapping, content, reason);
    case AboutKind => AboutIsSkippedIff(m, mapping, content, reason);
    case ContactKind => ContactIsSkippedIff(lookups, events, m, mapping, content, didOf, reason);
    case OtherKind =>
  }

  lemma PostsAsk(lookups: Lookups, rows: Rows, m: Incoming, mapping: Mapping, content: Ssb)
    ensures BuildPost(lookups, rows, m, mapping, content).Asks?
  {
  }

  lemma RepostsAsk(lookups: Lookups, rows: Rows, m: Incoming, mapping: Mapping, content: Ssb)
    ensures BuildRepost(lookups, rows, m, mapping, content).Asks?
  {
  }

  lemma VotesAskIff(lookups: Lookups, rows: Rows, m: Incoming, mapping: Mapping, content: Ssb)
    ensures BuildVote(lookups, rows, m, mapping, content).AsksNothing? <==> content.vote.None? || content.vote.value.value <= 0.0
  {
  }

  lemma ContactsAsk(lookups: Lookups, events: Events, m: Incoming, mapping: Mapping, content: Ssb, didOf: string -> Option<string>)
    ensures BuildContact(lookups, events, m, mapping, content, didOf).Asks?
  {
  }

  /** A message makes no event exactly if it asks for nothing. */
  lemma NothingAskedIff(lookups: Lookups, events: Events, rows: Rows, m: Incoming, mapping: Mapping, content: Ssb, didOf: string -> Option<string>)
    ensures Build(lookups, events, rows, m, mapping, content, didOf).AsksNothing? <==> Silent(content)
  {
    match content.kind
    case PostKind => PostsAsk(lookups, rows, m, mapping, content);
    case RepostKind => RepostsAsk(lookups, rows, m, mapping, content);
    case VoteKind => VotesAskIff(lookups, rows, m, mapping, content);
    case AboutKind =>
    case ContactKind => ContactsAsk(lookups, events, m, mapping, content, didOf);
    case OtherKind =>
  }

  // ---------------------------------------------------------------- deferred

  /** Some bridged row has the reference. */
  ghost predicate Bridged(rows: Rows, ref: string) {
    exists strong :: Refers(rows, ref, strong)
  }

  /** What a message lacks that is allowed, and is no unfollow: a bridged record, or the account of a feed. */
  ghost predicate Lacks(rows: Rows, mapping: Mapping, content: Ssb, didOf: string -> Option<string>, reason: string) {
    match content.kind
    case PostKind =>
      && InThread(content) && mapping.replies
      && var ends := ReplyRefsOf(content);
        if !Bridged(rows, ends.root) then reason == "reply_root_unmapped=" + ends.root
        else !Bridged(rows, ends.parent) && reason == "reply_parent_unmapped=" + ends.parent
    case RepostKind =>
      && !Blank(Reposted(content)) && mapping.posts && !Bridged(rows, Reposted(content)) && reason == "repost_target_unmapped=" + Trim(Reposted(content))
    case VoteKind =>
      && content.vote.Some? && content.vote.value.value > 0.0 && !Blank(content.vote.value.link) && mapping.posts
      && !Bridged(rows, content.vote.value.link) && reason == "vote_target_unmapped=" + Trim(content.vote.value.link)
    case AboutKind => false
    case ContactKind =>
      if Blank(content.contact) then reason == "missing_contact_feed"
      else
        && !content.blocking && mapping.follows && reason == "target_did_unmapped=" + Trim(content.contact)
        && var did := didOf(Trim(content.contact)); (did.None? || Blank(did.value))
    case OtherKind => false
  }

  predicate IsDeferred(built: Built, reason: string) {
    built.Asks? && built.event.state.Deferred? && built.event.reason == reason
  }

  lemma UsableIff(lookups: Lookups, rows: Rows, ref: string)
    requires Honest(lookups) && Keyed(rows) && AllUsable(rows) && !Blank(ref)
    ensures ReverseEvents.Usable(lookups.byRef(rows, ref)) <==> Bridged(rows, ref)
  {
    var found := lookups.byRef(rows, ref);
    assert IsRowOf(rows, ref, found);
    if ReverseEvents.Usable(found) {
      assert Refers(rows, ref, Strong(found.value.uri, found.value.cid));
    } else if Bridged(rows, ref) {
      var strong :| Refers(rows, ref, strong);
      ReferredIsFound(lookups, rows, ref, strong);
    }
  }

  lemma ReplyIsDeferredIff(lookups: Lookups, rows: Rows, m: Incoming, mapping: Mapping, content: Ssb, didOf: string -> Option<string>, reason: string)
    requires Honest(lookups) && Keyed(rows) && AllUsable(rows) && content.kind.PostKind?
    ensures IsDeferred(BuildPost(lookups, rows, m, mapping, content), reason) <==> Lacks(rows, mapping, content, didOf, reason)
  {
    ThreadIsNamed(content);
    if InThread(content) {
      var ends := ReplyRefsOf(content);
      RefsAreTrimmed(content);
      ReplyNamesBoth(content);
      UsableIff(lookups, rows, ends.root);
      UsableIff(lookups, rows, ends.parent);
    }
  }

  lemma BridgedTrimmed(rows: Rows, ref: string)
    ensures Bridged(rows, Trim(ref)) <==> Bridged(rows, ref)
  {
    forall strong ensures Refers(rows, Trim(ref), strong) <==> Refers(rows, ref, strong) {
      RefersTrimmed(rows, ref, strong);
    }
  }

  lemma TargetIsDeferredIff(lookups: Lookups, rows: Rows, event: Event, ref: string, missing: string, like: bool, reason: string)
    requires Honest(lookups) && Keyed(rows) && AllUsable(rows) && !Blank(ref) && event.state.Waiting?
    ensures IsDeferred(BuildOnTarget(lookups, rows, event, Trim(ref), missing, like), reason) <==>
      !Bridged(rows, ref) && reason == missing + Trim(ref)
  {
    TrimTwice(ref);
    UsableIff(lookups, rows, Trim(ref));
    BridgedTrimmed(rows, ref);
  }

  lemma RepostIsDeferredIff(lookups: Lookups, rows: Rows, m: Incoming, mapping: Mapping, content: Ssb, didOf: string -> Option<string>, reason: string)
    requires Honest(lookups) && Keyed(rows) && AllUsable(rows) && content.kind.RepostKind?
    ensures IsDeferred(BuildRepost(lookups, rows, m, mapping, content), reason) <==> Lacks(rows, mapping, content, didOf, reason)
  {
    if !Blank(Reposted(content)) {
      TargetIsDeferredIff(lookups, rows, BaseEvent(m, mapping.did, RepostAction).(collection := Some(RepostType)), Reposted(content),
        "repost_target_unmapped=", false, reason);
    }
  }

  lemma VoteIsDeferredIff(lookups: Lookups, rows: Rows, m: Incoming, mapping: Mapping, content: Ssb, didOf: string -> Option<string>, reason: string)
    requires Honest(lookups) && Keyed(rows) && AllUsable(rows) && content.kind.VoteKind?
    ensures IsDeferred(BuildVote(lookups, rows, m, mapping, content), reason) <==> Lacks(rows, mapping, content, didOf, reason)
  {
    if content.vote.Some? && !Blank(content.vote.value.link) {
      TargetIsDeferredIff(lookups, rows, BaseEvent(m, mapping.did, VoteAction).(collection := Some(LikeType)), content.vote.value.link,
        "vote_target_unmapped=", true, reason);
    }
  }

  lemma FollowIsDeferredIff(lookups: Lookups, events: Events, rows: Rows, m: Incoming, mapping: Mapping, content: Ssb,
                            didOf: string -> Option<string>, reason: string)
    requires content.kind.ContactKind? && Follows(content)
    ensures IsDeferred(BuildContact(lookups, events, m, mapping, content, didOf), reason) <==> Lacks(rows, mapping, content, didOf, reason)
  {
  }

  /** The message is no unfollow. */
  predicate Follows(content: Ssb) {
    content.kind.ContactKind? ==> content.following || content.blocking || Blank(content.contact)
  }

  /** A message that is no unfollow is deferred exactly if it lacks something, which the reason names. */
  lemma DeferredIff(lookups: Lookups, events: Events, rows: Rows, m: Incoming, mapping: Mapping, content: Ssb,
                    didOf: string -> Option<string>, reason: string)
    requires Honest(lookups) && Keyed(rows) && AllUsable(rows) && Follows(content)
    ensures IsDeferred(Build(lookups, events, rows, m, mapping, content, didOf), reason) <==> Lacks(rows, mapping, content, didOf, reason)
  {
    match content.kind
    case PostKind => ReplyIsDeferredIff(lookups, rows, m, mapping, content, didOf, reason);
    case RepostKind => RepostIsDeferredIff(lookups, rows, m, mapping, content, didOf, reason);
    case VoteKind => VoteIsDeferredIff(lookups, rows, m, mapping, content, didOf, reason);
    case AboutKind =>
    case ContactKind => FollowIsDeferredIff(lookups, events, rows, m, mapping, content, didOf, reason);
    case OtherKind =>
  }

  // ---------------------------------------------------------------- what the tables keep

  /** A text that the table keeps: nothing, where it is blank. */
  predicate IsKept(text: string, kept: string) {
    kept == if Blank(text) then "" else text
  }

  /** The event as the table keeps it; its attempts are added up. */
  predicate IsStored(e: Event, stored: Event) {
    && stored.ref == e.ref && stored.author == e.author && stored.sequence == e.sequence && stored.seqNo == e.seqNo && stored.did == e.did
    && stored.action == e.action && stored.state == e.state && stored.lastAttempt == e.lastAttempt && stored.publishedAt == e.publishedAt
    && stored.error == e.error && stored.reason == e.reason && stored.collection == e.collection
    && stored.rawSsb == e.rawSsb && stored.rawAt == e.rawAt
    && IsKept(e.targetRef, stored.targetRef) && IsKept(e.targetFeed, stored.targetFeed) && IsKept(e.targetDid, stored.targetDid)
    && IsKept(e.targetUri, stored.targetUri) && IsKept(e.targetCid, stored.targetCid)
    && IsKept(e.resultUri, stored.resultUri) && IsKept(e.resultCid, stored.resultCid)
  }

  function AttemptsAt(t: Tables, ref: string): nat {
    if ref in t.events then t.events[ref].attempts else 0
  }

  lemma StoredIs(e: Event)
    ensures IsStored(e, Stored(e))
  {
  }

  /** Persisting an event keeps all of it, adds up its attempts and touches no other; one that misses an identifier is refused. */
  lemma PersistedIs(t: Tables, e: Event)
    ensures var h := Persist(t, e);
      if Blank(e.ref) || Blank(e.author) || Blank(e.did) || e.action.NoAction? then h.t == t && h.disposition.None?
      else
        && h.disposition == Some(Recorded) && h.t == t.(events := h.t.events) && e.ref in h.t.events && IsStored(e, h.t.events[e.ref])
        && h.t.events[e.ref].attempts == AttemptsAt(t, e.ref) + e.attempts
        && h.t.events.Keys == t.events.Keys + {e.ref} && forall ref <- t.events :: ref != e.ref ==> h.t.events[ref] == t.events[ref]
  {
    StoredIs(e);
  }

  /** The attempts of an event were added up, with the time of the last. */
  predicate Counted(t: Tables, after: Tables, ref: string, attempts: nat, last: Option<int>) {
    ref in after.events && after.events[ref].attempts == AttemptsAt(t, ref) + attempts && after.events[ref].lastAttempt == last
  }

  lemma PersistCounts(t: Tables, so: Tables, e: Event, told: Event)
    requires Acceptable(told) && so.events == t.events && told.ref == e.ref && told.attempts == e.attempts && told.lastAttempt == e.lastAttempt
    ensures Counted(t, Persist(so, told).t, e.ref, e.attempts, e.lastAttempt)
  {
  }

  lemma RecordCounts(env: Env, t: Tables, seqNo: int, e: Event, record: Record, now: int)
    requires Acceptable(e)
    ensures Counted(t, WriteRecord(env, t, seqNo, e, record, now).t, e.ref, e.attempts, e.lastAttempt)
  {
    match env.create(now, seqNo, record)
    case Err(error) => PersistCounts(t, t, e, Failing(e, error));
    case Ok(created) =>
      var published := Succeeded(e, created, now);
      PersistCounts(t, Correlated(env, Noted(t, e.ref, created.uri, false), published, record, now), e, published);
  }

  lemma DeletionCounts(env: Env, t: Tables, seqNo: int, e: Event, deleteUri: string, now: int)
    requires Acceptable(e)
    ensures Counted(t, WriteDeletion(env, t, seqNo, e, deleteUri, now).t, e.ref, e.attempts, e.lastAttempt)
  {
    match env.remove(now, seqNo, deleteUri)
    case Some(error) => PersistCounts(t, t, e, Failing(e, error));
    case None => PersistCounts(t, Noted(t, e.ref, deleteUri, true), e, Deleted(e, deleteUri, now));
  }

  lemma WriteCounts(env: Env, t: Tables, seqNo: int, content: Ssb, e: Event, record: Record, deleteUri: string, now: int)
    requires Acceptable(e)
    ensures Counted(t, ReverseSync.Write(env, t, seqNo, content, e, record, deleteUri, now).t, e.ref, e.attempts, e.lastAttempt)
  {
    if e.action.UnfollowAction? {
      DeletionCounts(env, t, seqNo, e, deleteUri, now);
    } else {
      match Enrich(env, t, seqNo, content, record, now)
      case EnrichFailed(error) => PersistCounts(t, t, e, Failing(e, error));
      case EnrichDeferred(reason) => PersistCounts(t, t, e, Deferring(e, reason));
      case EnrichReady(ready) => RecordCounts(env, t, seqNo, e, ready, now);
    }
  }

  /** Carrying out an event counts one attempt, at its time, exactly if the account has a credential. */
  lemma AttemptIsCounted(env: Env, t: Tables, seqNo: int, content: Ssb, e: Event, record: Record, deleteUri: string, now: int)
    requires Acceptable(e) && e.attempts == 0
    ensures var after := CarryOut(env, t, seqNo, content, e, record, deleteUri, now).t;
      if env.credential(now, e.did).None? then Counted(t, after, e.ref, 1, Some(now)) else Counted(t, after, e.ref, 0, e.lastAttempt)
  {
    var attempted := e.(attempts := 1, lastAttempt := Some(now));
    match env.credential(now, e.did)
    case Some(reason) => PersistCounts(t, t, e, Deferring(e, "credentials_" + reason));
    case None =>
      match env.session(now, seqNo)
      case Some(error) => PersistCounts(t, t, attempted, Failing(attempted, error));
      case None => WriteCounts(env, t, seqNo, content, attempted, record, deleteUri, now);
  }

  // ---------------------------------------------------------------- the row of a record created

  /** The ends of the thread that a record belongs to. */
  predicate InThreadOf(row: Message, record: Record) {
    if record.PostRecord? && record.thread.Some?
    then row.root == Trim(record.thread.value.root.uri) && row.parent == Trim(record.thread.value.parent.uri)
    else row.root == "" && row.parent == ""
  }

  /**
   A record that the host created under an identifier has a row under it, published: with the version and the JSON that
   the host answered, the message that asked for it as its reference and payload, and the account and thread it belongs to.
   */
  lemma CreatedRowIs(env: Env, t: Tables, seqNo: int, e: Event, record: Record, now: int)
    requires Acceptable(e) && env.create(now, seqNo, record).Ok? && !Blank(env.create(now, seqNo, record).value.uri)
    ensures var created, rows := env.create(now, seqNo, record).value, WriteRecord(env, t, seqNo, e, record, now).t.rows;
      && created.uri in rows
      && var row := rows[created.uri];
        && row.uri == created.uri && row.cid == created.cid && row.rawAt == created.rawAt && row.state == PublishedState
        && row.publishedAt == Some(now) && row.ref == e.ref && row.did == e.did && row.payload == env.payload(e.rawSsb)
        && (e.collection.Some? ==> row.collection == e.collection.value) && InThreadOf(row, record)
  {
    var created := env.create(now, seqNo, record).value;
    var published := Succeeded(e, created, now);
    var noted := Noted(t, e.ref, created.uri, false);
    assert Correlated(env, noted, published, record, now).rows == Upsert(t.rows, CorrelationRow(env, published, record), now);
    assert Persist(Correlated(env, noted, published, record, now), published).t.rows == Upsert(t.rows, CorrelationRow(env, published, record), now);
  }

  // ---------------------------------------------------------------- mappings

  /** A mapping counts for the trimmed feed, with its trimmed account, until it is removed; one without either is not kept. */
  lemma MappingIs(t: Tables, feed: string, mapping: Mapping)
    ensures var after := ReverseSync.Map(t, feed, mapping);
      if Blank(feed) || Blank(mapping.did) then after == t
      else
        && (Mapped(after, Trim(feed)) <==> mapping.active) && after.mappings[Trim(feed)] == mapping.(did := Trim(mapping.did))
        && !Mapped(Unmap(after, feed), Trim(feed))
        && forall other :: other != Trim(feed) ==> (Mapped(Unmap(after, feed), other) <==> Mapped(t, other))
  {
  }
}
