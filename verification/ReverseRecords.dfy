/**
 Which record a message of the receive log asks the bridge to create, told from the message and the tables alone.

 The module proves that a message is carried out by creating exactly that record, completed with nothing but its
 facets, its images or its avatar, and when there is one to create at all.
 */
module ReverseRecords {
  import opened Wrappers
  import opened Text
  import opened RichText
  import opened Mapper
  import opened Messages
  import opened ReverseEvents
  import opened ReverseSync

  // ---------------------------------------------------------------- what a message asks for

  /** A message names a thread in one of its fields. */
  predicate InThread(content: Ssb) {
    || !Blank(content.root) || !Blank(content.branch)
    || (content.comment.Some? && (!Blank(content.comment.value.root) || exists r <- content.comment.value.previous :: !Blank(r)))
  }

  /** The reference that a repost names. */
  function Reposted(content: Ssb): string {
    if !Blank(content.repost) then content.repost else content.share
  }

  /** A text, or nothing where it is empty. */
  predicate IsText(text: string, value: Option<string>) {
    if text == "" then value.None? else value == Some(text)
  }

  /** The record that a message of a mapped author asks to create. */
  ghost predicate WantsRecord(rows: Rows, mapping: Mapping, author: string, content: Ssb, didOf: string -> Option<string>, record: Record) {
    match content.kind
    case PostKind =>
      record.PostRecord? && record.text == content.text && record.facets == [] && record.images == 0 &&
      if InThread(content)
      then mapping.replies && record.thread.Some?
           && Refers(rows, ReplyRefsOf(content).root, record.thread.value.root)
           && Refers(rows, ReplyRefsOf(content).parent, record.thread.value.parent)
      else mapping.posts && record.thread.None?
    case RepostKind =>
      mapping.posts && !Blank(Reposted(content)) && record.RepostRecord? && Refers(rows, Reposted(content), record.subject)
    case VoteKind =>
      && mapping.posts && content.vote.Some? && content.vote.value.value > 0.0 && !Blank(content.vote.value.link)
      && record.LikeRecord? && Refers(rows, content.vote.value.link, record.subject)
    case AboutKind =>
      && author != "" && Trim(content.about) == author
      && record.ProfileRecord? && !record.avatar && IsText(content.name, record.name) && IsText(content.description, record.description)
    case ContactKind =>
      && mapping.follows && content.following && !content.blocking && !Blank(content.contact)
      && record.FollowRecord? && !Blank(record.did) && didOf(Trim(content.contact)) == Some(record.did)
    case OtherKind => false
  }

  /** The event names the target of the record. */
  predicate Targets(rows: Rows, content: Ssb, event: Event, record: Record) {
    match record
    case FollowRecord(did) =>
      event.action.FollowAction? && event.targetDid == did && event.targetFeed == Trim(content.contact) && event.collection == Some(FollowType)
    case LikeRecord(subject) =>
      && event.action.VoteAction? && event.collection == Some(LikeType) && IsTarget(rows, event, subject)
      && content.vote.Some? && event.targetRef == Trim(content.vote.value.link)
    case RepostRecord(subject) =>
      event.action.RepostAction? && event.collection == Some(RepostType) && IsTarget(rows, event, subject) && event.targetRef == Trim(Reposted(content))
    case ProfileRecord(_, _, _) => event.action.AboutAction? && event.collection == Some(ProfileType)
    case PostRecord(_, thread, _, _) =>
      event.collection == Some(PostType) &&
      (match thread
       case None => event.action.PostAction?
       case Some(ends) =>
         && event.action.ReplyAction? && event.targetRef == ReplyRefsOf(content).parent
         && event.targetUri == ends.parent.uri && event.targetCid == ends.parent.cid
         && ends.root.uri in rows && event.targetDid == rows[ends.root.uri].did)
    case NoRecord => false
  }

  predicate IsTarget(rows: Rows, event: Event, subject: Strong) {
    event.targetUri == subject.uri && event.targetCid == subject.cid && subject.uri in rows && event.targetDid == rows[subject.uri].did
  }

  /** What is built asks, if it is to be carried out and is no unfollow, for the record that the message wants. */
  ghost predicate AsksRightly(rows: Rows, mapping: Mapping, author: string, content: Ssb, didOf: string -> Option<string>, built: Built) {
    built.Asks? && built.event.state.Waiting? && !built.event.action.UnfollowAction? ==>
      && WantsRecord(rows, mapping, author, content, didOf, built.record)
      && Targets(rows, content, built.event, built.record) && built.deleteUri == ""
  }

  /** The references of a tangle: its root, and the last it names before the message. */
  function TangleRoot(content: Ssb): string {
    if content.comment.Some? then Trim(content.comment.value.root) else ""
  }

  function TangleParent(content: Ssb): string {
    if content.comment.Some? then LastNonBlank(content.comment.value.previous) else ""
  }

  /** What a tangle names last is the last of its references that is not blank. */
  lemma {:induction false} LastNonBlankIs(refs: seq<string>)
    requires LastNonBlank(refs) != ""
    ensures exists i :: 0 <= i < |refs| && LastNonBlank(refs) == Trim(refs[i]) && forall j :: i < j < |refs| ==> Blank(refs[j])
  {
    var n := |refs| - 1;
    if Blank(refs[n]) {
      LastNonBlankIs(refs[..n]);
      var i :| 0 <= i < n && LastNonBlank(refs[..n]) == Trim(refs[..n][i]) && forall j :: i < j < n ==> Blank(refs[..n][j]);
      assert refs[i] == refs[..n][i];
      forall j | i < j < |refs| ensures Blank(refs[j]) {
        if j < n {
          assert refs[j] == refs[..n][j];
        }
      }
    } else {
      assert LastNonBlank(refs) == Trim(refs[n]);
    }
  }

  /** The first of some references that is not empty. */
  predicate IsFirstOf(refs: seq<string>, ref: string) {
    exists i :: 0 <= i < |refs| && refs[i] == ref && ref != "" && forall j :: 0 <= j < i ==> refs[j] == ""
  }

  /** The thread is told by the message's own fields first, then by its tangle; each end stands in for the other. */
  lemma ThreadEndsAre(content: Ssb)
    requires InThread(content)
    ensures var own, refs := [Trim(content.root), TangleRoot(content)], ReplyRefsOf(content);
      var before := [Trim(content.branch), TangleParent(content)];
      IsFirstOf(own + before, refs.root) && IsFirstOf(before + own, refs.parent)
  {
    ThreadIsNamed(content);
    var own, before, refs := [Trim(content.root), TangleRoot(content)], [Trim(content.branch), TangleParent(content)], ReplyRefsOf(content);
    var a := if own[0] != "" then 0 else if own[1] != "" then 1 else if before[0] != "" then 2 else 3;
    assert (own + before)[a] == refs.root;
    var b := if before[0] != "" then 0 else if before[1] != "" then 1 else if own[0] != "" then 2 else 3;
    assert (before + own)[b] == refs.parent;
  }

  // ---------------------------------------------------------------- each kind of message

  lemma ThreadIsNamed(content: Ssb)
    ensures InThread(content) <==> ReplyRefsOf(content).root != "" || ReplyRefsOf(content).parent != ""
  {
    ReplyNamesBoth(content);
  }

  lemma PostsAskRightly(lookups: Lookups, rows: Rows, m: Incoming, mapping: Mapping, content: Ssb, didOf: string -> Option<string>)
    requires Honest(lookups) && Keyed(rows) && content.kind.PostKind?
    ensures AsksRightly(rows, mapping, m.author, content, didOf, BuildPost(lookups, rows, m, mapping, content))
  {
    ThreadIsNamed(content);
    if InThread(content) {
      RepliesAskRightly(lookups, rows, m, mapping, content, didOf);
    }
  }

  lemma RepliesAskRightly(lookups: Lookups, rows: Rows, m: Incoming, mapping: Mapping, content: Ssb, didOf: string -> Option<string>)
    requires Honest(lookups) && Keyed(rows) && content.kind.PostKind? && InThread(content)
    ensures AsksRightly(rows, mapping, m.author, content, didOf, BuildReply(lookups, rows, m, mapping, content, ReplyRefsOf(content)))
  {
    var refs := ReplyRefsOf(content);
    assert IsRowOf(rows, refs.root, lookups.byRef(rows, refs.root));
    assert IsRowOf(rows, refs.parent, lookups.byRef(rows, refs.parent));
  }

  /** What is built on a target is built on the row that has its reference. */
  lemma TargetIsRow(lookups: Lookups, rows: Rows, event: Event, targetRef: string, missing: string, like: bool)
    requires Honest(lookups) && Keyed(rows) && event.state.Waiting?
    ensures var built := BuildOnTarget(lookups, rows, event, targetRef, missing, like);
      built.Asks? && built.event.state.Waiting? ==>
        && built.deleteUri == "" && (if like then built.record.LikeRecord? else built.record.RepostRecord?)
        && Refers(rows, targetRef, built.record.subject) && IsTarget(rows, built.event, built.record.subject)
        && built.event.targetRef == targetRef && built.event.action == event.action && built.event.collection == event.collection
  {
    assert IsRowOf(rows, targetRef, lookups.byRef(rows, targetRef));
  }

  lemma RefersTrimmed(rows: Rows, ref: string, strong: Strong)
    ensures Refers(rows, Trim(ref), strong) <==> Refers(rows, ref, strong)
  {
    TrimTwice(ref);
  }

  lemma RepostsAskRightly(lookups: Lookups, rows: Rows, m: Incoming, mapping: Mapping, content: Ssb, didOf: string -> Option<string>)
    requires Honest(lookups) && Keyed(rows) && content.kind.RepostKind?
    ensures AsksRightly(rows, mapping, m.author, content, didOf, BuildRepost(lookups, rows, m, mapping, content))
  {
    var built := BuildRepost(lookups, rows, m, mapping, content);
    var event := BaseEvent(m, mapping.did, RepostAction).(collection := Some(RepostType));
    TargetIsRow(lookups, rows, event, Trim(Reposted(content)), "repost_target_unmapped=", false);
    if built.Asks? && built.event.state.Waiting? {
      RefersTrimmed(rows, Reposted(content), built.record.subject);
    }
  }

  lemma VotesAskRightly(lookups: Lookups, rows: Rows, m: Incoming, mapping: Mapping, content: Ssb, didOf: string -> Option<string>)
    requires Honest(lookups) && Keyed(rows) && content.kind.VoteKind?
    ensures AsksRightly(rows, mapping, m.author, content, didOf, BuildVote(lookups, rows, m, mapping, content))
  {
    var built := BuildVote(lookups, rows, m, mapping, content);
    if content.vote.Some? {
      var event := BaseEvent(m, mapping.did, VoteAction).(collection := Some(LikeType));
      TargetIsRow(lookups, rows, event, Trim(content.vote.value.link), "vote_target_unmapped=", true);
      if built.Asks? && built.event.state.Waiting? {
        RefersTrimmed(rows, content.vote.value.link, built.record.subject);
      }
    }
  }

  lemma AboutsAskRightly(rows: Rows, m: Incoming, mapping: Mapping, content: Ssb, didOf: string -> Option<string>)
    requires content.kind.AboutKind?
    ensures AsksRightly(rows, mapping, m.author, content, didOf, BuildAbout(m, mapping, content))
  {
  }

  lemma ContactsAskRightly(lookups: Lookups, events: Events, rows: Rows, m: Incoming, mapping: Mapping, content: Ssb,
                           didOf: string -> Option<string>)
    requires content.kind.ContactKind?
    ensures AsksRightly(rows, mapping, m.author, content, didOf, BuildContact(lookups, events, m, mapping, content, didOf))
  {
  }

  /** Whatever event is to be carried out, unless it is an unfollow, comes with the record that its message wants. */
  lemma WaitingAsksRightly(lookups: Lookups, events: Events, rows: Rows, m: Incoming, mapping: Mapping, content: Ssb,
                           didOf: string -> Option<string>)
    requires Honest(lookups) && Keyed(rows)
    ensures AsksRightly(rows, mapping, m.author, content, didOf, Build(lookups, events, rows, m, mapping, content, didOf))
  {
    match content.kind
    case PostKind => PostsAskRightly(lookups, rows, m, mapping, content, didOf);
    case RepostKind => RepostsAskRightly(lookups, rows, m, mapping, content, didOf);
    case VoteKind => VotesAskRightly(lookups, rows, m, mapping, content, didOf);
    case AboutKind => AboutsAskRightly(rows, m, mapping, content, didOf);
    case ContactKind => ContactsAskRightly(lookups, events, rows, m, mapping, content, didOf);
    case OtherKind =>
  }

  // ---------------------------------------------------------------- when there is one to create

  /** Every row with a reference has its identifiers. */
  predicate AllUsable(rows: Rows) {
    forall uri <- rows :: !Blank(rows[uri].ref) ==> !Blank(rows[uri].uri) && !Blank(rows[uri].cid)
  }

  lemma ReferredIsFound(lookups: Lookups, rows: Rows, ref: string, strong: Strong)
    requires Honest(lookups) && Keyed(rows) && AllUsable(rows) && Refers(rows, ref, strong) && !Blank(ref)
    ensures ReverseEvents.Usable(lookups.byRef(rows, ref))
  {
    TrimTwice(ref);
    assert IsRowOf(rows, ref, lookups.byRef(rows, ref));
  }

  /** A record to be created, and no unfollow. */
  predicate Creates(built: Built) {
    built.Asks? && built.event.state.Waiting? && !built.event.action.UnfollowAction?
  }

  lemma WantedReply(lookups: Lookups, rows: Rows, m: Incoming, mapping: Mapping, content: Ssb, didOf: string -> Option<string>, record: Record)
    requires Honest(lookups) && Keyed(rows) && AllUsable(rows) && content.kind.PostKind? && InThread(content)
    requires WantsRecord(rows, mapping, m.author, content, didOf, record)
    ensures Creates(BuildReply(lookups, rows, m, mapping, content, ReplyRefsOf(content)))
  {
    var refs := ReplyRefsOf(content);
    ThreadIsNamed(content);
    RefsAreTrimmed(content);
    ReplyNamesBoth(content);
    ReferredIsFound(lookups, rows, refs.root, record.thread.value.root);
    ReferredIsFound(lookups, rows, refs.parent, record.thread.value.parent);
  }

  lemma {:induction false} LastNonBlankIsTrimmed(refs: seq<string>)
    ensures Trim(LastNonBlank(refs)) == LastNonBlank(refs)
  {
    if refs != [] {
      TrimTwice(refs[|refs| - 1]);
      LastNonBlankIsTrimmed(refs[..|refs| - 1]);
    }
  }

  lemma RefsAreTrimmed(content: Ssb)
    ensures Trim(ReplyRefsOf(content).root) == ReplyRefsOf(content).root && Trim(ReplyRefsOf(content).parent) == ReplyRefsOf(content).parent
  {
    TrimTwice(content.root);
    TrimTwice(content.branch);
    if content.comment.Some? {
      TrimTwice(content.comment.value.root);
      LastNonBlankIsTrimmed(content.comment.value.previous);
    }
  }

  lemma WantedOnTarget(lookups: Lookups, rows: Rows, event: Event, ref: string, missing: string, like: bool, strong: Strong)
    requires Honest(lookups) && Keyed(rows) && AllUsable(rows) && Refers(rows, ref, strong) && !Blank(ref)
    requires event.state.Waiting? && !event.action.UnfollowAction?
    ensures Creates(BuildOnTarget(lookups, rows, event, Trim(ref), missing, like))
  {
    TrimTwice(ref);
    ReferredIsFound(lookups, rows, Trim(ref), strong);
  }

  lemma WantedIsAsked(lookups: Lookups, events: Events, rows: Rows, m: Incoming, mapping: Mapping, content: Ssb,
                      didOf: string -> Option<string>, record: Record)
    requires Honest(lookups) && Keyed(rows) && AllUsable(rows) && WantsRecord(rows, mapping, m.author, content, didOf, record)
    ensures Creates(Build(lookups, events, rows, m, mapping, content, didOf))
  {
    match content.kind
    case PostKind =>
      ThreadIsNamed(content);
      if InThread(content) {
        WantedReply(lookups, rows, m, mapping, content, didOf, record);
      }
    case RepostKind =>
      WantedOnTarget(lookups, rows, BaseEvent(m, mapping.did, RepostAction).(collection := Some(RepostType)), Reposted(content),
        "repost_target_unmapped=", false, record.subject);
    case VoteKind =>
      WantedOnTarget(lookups, rows, BaseEvent(m, mapping.did, VoteAction).(collection := Some(LikeType)), content.vote.value.link,
        "vote_target_unmapped=", true, record.subject);
    case _ =>
  }

  /** Where all rows with a reference have their identifiers, a message leads to a creation exactly when it wants a record. */
  lemma CreatesIffWanted(lookups: Lookups, events: Events, rows: Rows, m: Incoming, mapping: Mapping, content: Ssb,
                         didOf: string -> Option<string>)
    requires Honest(lookups) && Keyed(rows) && AllUsable(rows)
    ensures Creates(Build(lookups, events, rows, m, mapping, content, didOf))
      <==> exists record :: WantsRecord(rows, mapping, m.author, content, didOf, record)
  {
    WaitingAsksRightly(lookups, events, rows, m, mapping, content, didOf);
    if record :| WantsRecord(rows, mapping, m.author, content, didOf, record) {
      WantedIsAsked(lookups, events, rows, m, mapping, content, didOf, record);
    }
  }

  // ---------------------------------------------------------------- what is created

  /** The record as asked for, completed: a post by its images and the facets of its text, a profile by its avatar. */
  ghost predicate Completed(env: Env, t: Tables, seqNo: int, content: Ssb, asked: Record, ready: Record, now: int) {
    match asked
    case PostRecord(text, thread, _, _) =>
      var images := env.images(now, seqNo, content, text);
      && images.ImagesReady? && ready.PostRecord? && ready.thread == thread && ready.text == images.text && ready.images == images.count
      && ReverseFacets(images.text, content.mentions, images.embedded, DidAnswerOf(t.mappings, t.accounts), UrlsOf(env, images.text)) == Ok(ready.facets)
    case ProfileRecord(name, description, _) =>
      && ready.ProfileRecord? && ready.name == name && ready.description == description
      && env.avatar(now, seqNo, content) == AvatarReady(ready.avatar)
    case _ => ready == asked
  }

  /** The one write of the event: the host created the record, and the event keeps what it answered. */
  predicate CreatedOnly(env: Env, t: Tables, after: Tables, seqNo: int, ref: string, ready: Record, now: int) {
    env.create(now, seqNo, ready).Ok? &&
      var created := env.create(now, seqNo, ready).value;
      && after.remote == t.remote + [RemoteOp(ref, created.uri, false)]
      && (ref in after.events && after.events[ref].state.Published? ==>
            after.events[ref].resultUri == NullIfBlank(created.uri) && after.events[ref].resultCid == NullIfBlank(created.cid))
  }

  lemma WrittenRecord(env: Env, t: Tables, seqNo: int, e: Event, ready: Record, now: int)
    requires Acceptable(e)
    ensures var after := WriteRecord(env, t, seqNo, e, ready, now).t; after.remote != t.remote ==> CreatedOnly(env, t, after, seqNo, e.ref, ready, now)
  {
    if env.create(now, seqNo, ready).Ok? {
      var created := env.create(now, seqNo, ready).value;
      var published := Succeeded(e, created, now);
      assert Persist(Correlated(env, Noted(t, e.ref, created.uri, false), published, ready, now), published).t.events[e.ref].resultUri == NullIfBlank(created.uri);
    }
  }

  lemma EnrichedRecord(env: Env, t: Tables, seqNo: int, content: Ssb, asked: Record, now: int)
    ensures var enriched := Enrich(env, t, seqNo, content, asked, now);
      enriched.EnrichReady? ==> Completed(env, t, seqNo, content, asked, enriched.record, now)
  {
  }

  lemma CarryOutWrites(env: Env, t: Tables, seqNo: int, content: Ssb, e: Event, asked: Record, deleteUri: string, now: int)
    requires !e.action.UnfollowAction?
    ensures var attempted, h := e.(attempts := 1, lastAttempt := Some(now)), CarryOut(env, t, seqNo, content, e, asked, deleteUri, now);
      h.t.remote != t.remote ==> h == WriteEnriched(env, t, seqNo, attempted, Enrich(env, t, seqNo, content, asked, now), now)
  {
  }

  lemma EnrichedWrites(env: Env, t: Tables, seqNo: int, e: Event, enriched: Enriched, now: int)
    ensures var h := WriteEnriched(env, t, seqNo, e, enriched, now);
      h.t.remote != t.remote ==> enriched.EnrichReady? && h == WriteRecord(env, t, seqNo, e, enriched.record, now)
  {
  }

  /** An event that is carried out with a write creates the record asked for, completed. */
  lemma CarriedOutRecord(env: Env, t: Tables, seqNo: int, content: Ssb, e: Event, asked: Record, deleteUri: string, now: int)
    returns (ready: Record)
    requires Acceptable(e) && !e.action.UnfollowAction?
    requires CarryOut(env, t, seqNo, content, e, asked, deleteUri, now).t.remote != t.remote
    ensures Completed(env, t, seqNo, content, asked, ready, now)
    ensures CreatedOnly(env, t, CarryOut(env, t, seqNo, content, e, asked, deleteUri, now).t, seqNo, e.ref, ready, now)
  {
    var attempted := e.(attempts := 1, lastAttempt := Some(now));
    var enriched := Enrich(env, t, seqNo, content, asked, now);
    CarryOutWrites(env, t, seqNo, content, e, asked, deleteUri, now);
    EnrichedWrites(env, t, seqNo, attempted, enriched, now);
    EnrichedRecord(env, t, seqNo, content, asked, now);
    ready := enriched.record;
    WrittenRecord(env, t, seqNo, attempted, ready, now);
  }

  lemma DeletionWrites(env: Env, t: Tables, seqNo: int, e: Event, deleteUri: string, now: int)
    ensures var after := WriteDeletion(env, t, seqNo, e, deleteUri, now).t;
      after.remote == t.remote || after.remote == t.remote + [RemoteOp(e.ref, deleteUri, true)]
  {
  }

  /** The deletion of an unfollow writes no creation. */
  lemma UnfollowWrites(env: Env, t: Tables, seqNo: int, content: Ssb, e: Event, asked: Record, deleteUri: string, now: int)
    requires e.action.UnfollowAction?
    ensures var after := CarryOut(env, t, seqNo, content, e, asked, deleteUri, now).t;
      after.remote == t.remote || after.remote == t.remote + [RemoteOp(e.ref, deleteUri, true)]
  {
    DeletionWrites(env, t, seqNo, e.(attempts := 1, lastAttempt := Some(now)), deleteUri, now);
  }

  /** The message was handled with the creation of a record. */
  predicate HandledWithCreation(t: Tables, after: Tables) {
    after.remote != t.remote && after.remote != [] && !after.remote[|after.remote| - 1].deleted
  }

  function BuiltFor(env: Env, t: Tables, m: Incoming): Built
    requires Mapped(t, m.author) && env.decode(m.raw).Some?
  {
    Build(env.lookups, t.events, t.rows, m, t.mappings[m.author], env.decode(m.raw).value, DidLookupOf(t.mappings, t.accounts))
  }

  /** A message is handled with a write only by carrying out the event that it asks for. */
  lemma HandleWrites(env: Env, t: Tables, raw: Incoming, force: bool, now: int)
    requires Handle(env, t, raw, force, now).t.remote != t.remote
    ensures var m := Trimmed(raw);
      && m.ref != "" && m.author != "" && Mapped(t, m.author) && env.decode(m.raw).Some?
      && var built := BuiltFor(env, t, m);
        && built.Asks? && !built.event.state.Deferred? && !built.event.state.Skipped?
        && Handle(env, t, raw, force, now)
             == CarryOut(env, t, m.seqNo, env.decode(m.raw).value, built.event, built.record, built.deleteUri, now)
  {
  }

  /**
   Handling a message creates a record at a remote host only if it is of a mapped author and wants one; then it is that
   one, completed, and the event keeps the identifiers that the host answered. Nothing else is created.
   */
  lemma HandlingCreatesWanted(env: Env, t: Tables, raw: Incoming, force: bool, now: int) returns (asked: Record, ready: Record)
    requires Honest(env.lookups) && Keyed(t.rows) && HandledWithCreation(t, Handle(env, t, raw, force, now).t)
    requires forall author <- t.mappings :: !Blank(t.mappings[author].did)
    ensures var m, after := Trimmed(raw), Handle(env, t, raw, force, now).t;
      && m.ref != "" && Mapped(t, m.author) && env.decode(m.raw).Some?
      && var mapping, content := t.mappings[m.author], env.decode(m.raw).value;
        && WantsRecord(t.rows, mapping, m.author, content, DidLookupOf(t.mappings, t.accounts), asked)
        && Completed(env, t, m.seqNo, content, asked, ready, now)
        && CreatedOnly(env, t, after, m.seqNo, m.ref, ready, now)
  {
    HandleWrites(env, t, raw, force, now);
    var m := Trimmed(raw);
    var mapping, content, built := t.mappings[m.author], env.decode(m.raw).value, BuiltFor(env, t, m);
    WaitingAsksRightly(env.lookups, t.events, t.rows, m, mapping, content, DidLookupOf(t.mappings, t.accounts));
    BuildIsWell(env.lookups, t.events, t.rows, m, mapping, content, DidLookupOf(t.mappings, t.accounts));
    TrimTwice(raw.ref);
    TrimTwice(raw.author);
    asked := built.record;
    if built.event.action.UnfollowAction? {
      UnfollowWrites(env, t, m.seqNo, content, built.event, asked, built.deleteUri, now);
      assert false;
    }
    ready := CarriedOutRecord(env, t, m.seqNo, content, built.event, asked, built.deleteUri, now);
  }

  /** A message to be handled: named, of a mapped author, decodable, and not dealt with unless it is a retry. */
  predicate ToHandle(env: Env, t: Tables, m: Incoming, force: bool) {
    m.ref != "" && m.author != "" && (force || !Done(t, m.ref)) && Mapped(t, m.author) && env.decode(m.raw).Some?
  }

  /** The author's account can write now. */
  predicate CanWrite(env: Env, did: string, seqNo: int, now: int) {
    env.credential(now, did).None? && env.session(now, seqNo).None?
  }

  lemma HandledAsBuilt(env: Env, t: Tables, raw: Incoming, force: bool, now: int)
    requires ToHandle(env, t, Trimmed(raw), force) && Creates(BuiltFor(env, t, Trimmed(raw)))
    ensures var m := Trimmed(raw); var built := BuiltFor(env, t, m);
      Handle(env, t, raw, force, now) == CarryOut(env, t, m.seqNo, env.decode(m.raw).value, built.event, built.record, built.deleteUri, now)
  {
  }

  lemma CompletedIsEnriched(env: Env, t: Tables, seqNo: int, content: Ssb, asked: Record, ready: Record, now: int)
    requires Completed(env, t, seqNo, content, asked, ready, now)
    ensures Enrich(env, t, seqNo, content, asked, now) == EnrichReady(ready)
  {
  }

  /** Where the account can write and the host accepts the record, once completed, it is created and the event published. */
  lemma AcceptedIsPublished(env: Env, t: Tables, seqNo: int, content: Ssb, e: Event, asked: Record, ready: Record, deleteUri: string, now: int)
    requires Acceptable(e) && !e.action.UnfollowAction? && CanWrite(env, e.did, seqNo, now)
    requires Completed(env, t, seqNo, content, asked, ready, now) && env.create(now, seqNo, ready).Ok?
    ensures var after := CarryOut(env, t, seqNo, content, e, asked, deleteUri, now).t;
      IsPublished(after.events, e.ref) && CreatedOnly(env, t, after, seqNo, e.ref, ready, now)
  {
    var attempted := e.(attempts := 1, lastAttempt := Some(now));
    CompletedIsEnriched(env, t, seqNo, content, asked, ready, now);
    assert CarryOut(env, t, seqNo, content, e, asked, deleteUri, now) == WriteRecord(env, t, seqNo, attempted, ready, now);
    WrittenRecord(env, t, seqNo, attempted, ready, now);
    WrittenIsPublished(env, t, seqNo, attempted, ready, now);
  }

  lemma WrittenIsPublished(env: Env, t: Tables, seqNo: int, e: Event, ready: Record, now: int)
    requires Acceptable(e) && env.create(now, seqNo, ready).Ok?
    ensures var after := WriteRecord(env, t, seqNo, e, ready, now).t; IsPublished(after.events, e.ref) && after.remote != t.remote
  {
    var created := env.create(now, seqNo, ready).value;
    assert |t.remote + [RemoteOp(e.ref, created.uri, false)]| == |t.remote| + 1;
  }

  /**
   Conversely a message that wants a record, handled where its author's account can write, has that record created and
   its event published as soon as it can be completed and the host accepts it.
   */
  lemma WantedIsCreated(env: Env, t: Tables, raw: Incoming, force: bool, now: int) returns (asked: Record)
    requires Honest(env.lookups) && Keyed(t.rows) && AllUsable(t.rows) && ToHandle(env, t, Trimmed(raw), force)
    requires var m := Trimmed(raw);
      && !Blank(t.mappings[m.author].did) && CanWrite(env, t.mappings[m.author].did, m.seqNo, now)
      && exists record :: WantsRecord(t.rows, t.mappings[m.author], m.author, env.decode(m.raw).value, DidLookupOf(t.mappings, t.accounts), record)
    ensures var m, after := Trimmed(raw), Handle(env, t, raw, force, now).t;
      var content := env.decode(m.raw).value;
      && WantsRecord(t.rows, t.mappings[m.author], m.author, content, DidLookupOf(t.mappings, t.accounts), asked)
      && forall ready :: Completed(env, t, m.seqNo, content, asked, ready, now) && env.create(now, m.seqNo, ready).Ok? ==>
           IsPublished(after.events, m.ref) && CreatedOnly(env, t, after, m.seqNo, m.ref, ready, now)
  {
    var m := Trimmed(raw);
    var mapping, content, built := t.mappings[m.author], env.decode(m.raw).value, BuiltFor(env, t, m);
    var didOf := DidLookupOf(t.mappings, t.accounts);
    CreatesIffWanted(env.lookups, t.events, t.rows, m, mapping, content, didOf);
    WaitingAsksRightly(env.lookups, t.events, t.rows, m, mapping, content, didOf);
    BuildIsWell(env.lookups, t.events, t.rows, m, mapping, content, didOf);
    TrimTwice(raw.ref);
    TrimTwice(raw.author);
    asked := built.record;
    HandledAsBuilt(env, t, raw, force, now);
    forall ready | Completed(env, t, m.seqNo, content, asked, ready, now) && env.create(now, m.seqNo, ready).Ok?
      ensures IsPublished(Handle(env, t, raw, force, now).t.events, m.ref)
        && CreatedOnly(env, t, Handle(env, t, raw, force, now).t, m.seqNo, m.ref, ready, now)
    {
      AcceptedIsPublished(env, t, m.seqNo, content, built.event, asked, ready, built.deleteUri, now);
    }
  }

  // ---------------------------------------------------------------- accounts, refusals and retries

  /** The account of a feed: that of its active mapping, or else that of an active bridged account. */
  lemma AccountOfFeed(t: Tables, name: string, did: string)
    ensures var feed := Trim(name);
      DidLookupOf(t.mappings, t.accounts)(name) == Some(did) <==>
        && feed != ""
        && (if Mapped(t, feed) then did == t.mappings[feed].did else feed in t.accounts && did == t.accounts[feed])
  {
  }

  /** The event is recorded in this state, with the text where it belongs, and nothing was written remotely. */
  predicate ToldAs(t: Tables, after: Tables, ref: string, state: EventState, text: string) {
    && after.remote == t.remote && after.rows == t.rows && ref in after.events && after.events[ref].state == state
    && (if state.Deferred? then after.events[ref].reason == text else after.events[ref].error == text)
  }

  lemma GivenUpIsTold(t: Tables, e: Event, text: string)
    requires Acceptable(e)
    ensures ToldAs(t, Persist(t, Failing(e, text)).t, e.ref, Failed, text)
    ensures ToldAs(t, Persist(t, Deferring(e, text)).t, e.ref, Deferred, text)
  {
  }

  /** An event whose account has no usable credential waits for one, and one without a session fails; nothing is written. */
  lemma WithoutAccessIsTold(env: Env, t: Tables, seqNo: int, content: Ssb, e: Event, asked: Record, deleteUri: string, now: int)
    requires Acceptable(e)
    ensures var after, missing, refused := CarryOut(env, t, seqNo, content, e, asked, deleteUri, now).t, env.credential(now, e.did), env.session(now, seqNo);
      && (missing.Some? ==> ToldAs(t, after, e.ref, Deferred, "credentials_" + missing.value))
      && (missing.None? && refused.Some? ==> ToldAs(t, after, e.ref, Failed, refused.value))
  {
    var missing, refused := env.credential(now, e.did), env.session(now, seqNo);
    if missing.Some? {
      GivenUpIsTold(t, e, "credentials_" + missing.value);
    } else if refused.Some? {
      GivenUpIsTold(t, e.(attempts := 1, lastAttempt := Some(now)), refused.value);
    }
  }

  /** An event whose record the host refuses fails with what the host said. */
  lemma RefusedIsTold(env: Env, t: Tables, seqNo: int, content: Ssb, e: Event, asked: Record, ready: Record, deleteUri: string, now: int)
    requires Acceptable(e) && !e.action.UnfollowAction? && CanWrite(env, e.did, seqNo, now)
    requires Completed(env, t, seqNo, content, asked, ready, now) && env.create(now, seqNo, ready).Err?
    ensures ToldAs(t, CarryOut(env, t, seqNo, content, e, asked, deleteUri, now).t, e.ref, Failed, env.create(now, seqNo, ready).error)
  {
    CompletedIsEnriched(env, t, seqNo, content, asked, ready, now);
    GivenUpIsTold(t, e.(attempts := 1, lastAttempt := Some(now)), env.create(now, seqNo, ready).error);
  }

  /** The message that an event was made of, as the event keeps it. */
  function KeptMessage(e: Event): Incoming {
    Incoming(e.seqNo, e.ref, e.author, e.sequence, e.rawSsb)
  }

  /** A retry of an event that is not final handles its message again, as the event keeps it. */
  lemma RetryHandlesAgain(env: Env, t: Tables, name: string, now: int)
    requires Trim(name) != "" && Trim(name) in t.events && !Final(t.events[Trim(name)])
    ensures var ref := Trim(name);
      ReverseSync.Retry(env, t, name, now) ==
        Handle(env, t.(events := t.events[ref := t.events[ref].(state := Waiting, error := "", reason := "")]), KeptMessage(t.events[ref]), true, now)
  {
  }
}
