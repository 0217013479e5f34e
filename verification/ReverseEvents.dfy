/**
 The reverse direction: messages of the SSB receive log that become events to carry out on the AT
 Protocol side. This module decides what a message asks for.

 It proves that an unfollow asks for the deletion of the record of the latest published follow of the same
 account and target, whenever there is one, and that a reply is built only on records the bridge knows on
 both ends.
 */
module ReverseEvents {
  import opened Wrappers
  import opened Text
  import opened RichText
  import opened Mapper
  import opened Messages

  datatype Action =
    | PostAction | ReplyAction | FollowAction | UnfollowAction | VoteAction | AboutAction | RepostAction
    | NoAction

  datatype EventState = Waiting | Published | Failed | Deferred | Skipped

  datatype Event = Event(
    ref: string,
    author: string,
    sequence: Option<int>,
    seqNo: int,
    did: string,
    action: Action,
    state: EventState,
    attempts: nat,
    lastAttempt: Option<int>,
    publishedAt: Option<int>,
    error: string,
    reason: string,
    targetRef: string,
    targetFeed: string,
    targetDid: string,
    targetUri: string,
    targetCid: string,
    resultUri: string,
    resultCid: string,
    collection: Option<Collection>,
    rawSsb: string,
    rawAt: string)

  type Events = map<string, Event>

  datatype Mapping = Mapping(did: string, active: bool, posts: bool, replies: bool, follows: bool)

  // ---------------------------------------------------------------- message content

  datatype Kind = PostKind | RepostKind | VoteKind | AboutKind | ContactKind | OtherKind

  datatype CommentTangle = CommentTangle(root: string, previous: seq<string>)
  datatype VotePart = VotePart(value: real, link: string)

  /** The fields of a decoded message; a field that is missing or no text is empty. */
  datatype Ssb = Ssb(
    kind: Kind,
    text: string,
    root: string,
    branch: string,
    comment: Option<CommentTangle>,
    repost: string,
    share: string,
    vote: Option<VotePart>,
    about: string,
    name: string,
    description: string,
    contact: string,
    blocking: bool,
    following: bool,
    mentions: seq<Mention>)

  function LastNonBlank(refs: seq<string>): string {
    if refs == [] then ""
    else
      var n := |refs| - 1;
      if !Blank(refs[n]) then Trim(refs[n]) else LastNonBlank(refs[..n])
  }

  datatype ReplyRefs = ReplyRefs(root: string, parent: string)

  /** The thread a post replies to: from its own fields, then from its tangle, each standing in for the other. */
  function ReplyRefsOf(content: Ssb): ReplyRefs {
    var root0 := Trim(content.root);
    var parent0 := Trim(content.branch);
    var root1 := if root0 == "" && content.comment.Some? then Trim(content.comment.value.root) else root0;
    var parent1 := if parent0 == "" && content.comment.Some? then LastNonBlank(content.comment.value.previous) else parent0;
    var parent2 := if parent1 == "" then root1 else parent1;
    ReplyRefs(if root1 == "" then parent2 else root1, parent2)
  }

  // ---------------------------------------------------------------- records

  datatype Strong = Strong(uri: string, cid: string)
  datatype Thread = Thread(root: Strong, parent: Strong)

  datatype Record =
    | NoRecord
    | PostRecord(text: string, thread: Option<Thread>, facets: seq<Facet>, images: nat)
    | RepostRecord(subject: Strong)
    | LikeRecord(subject: Strong)
    | ProfileRecord(name: Option<string>, description: Option<string>, avatar: bool)
    | FollowRecord(did: string)

  /** What a message asks for: nothing, or an event with the record to create or the one to delete. */
  datatype Built = AsksNothing | Asks(event: Event, record: Record, deleteUri: string)

  /**
   The lookups of the bridge's own tables: a message by its SSB reference, and the latest published
   follow of a target by an account.
   */
  datatype Lookups = Lookups(
    byRef: (Rows, string) -> Option<Message>,
    lastFollow: (Events, string, string) -> Option<Event>)

  predicate IsFollowOf(event: Event, did: string, target: string) {
    && event.did == Trim(did) && event.action.FollowAction? && event.state.Published?
    && event.targetDid == Trim(target) && !Blank(event.resultUri)
  }

  predicate LaterThan(a: Event, b: Event) {
    a.publishedAt.Some? && b.publishedAt.Some? && a.publishedAt.value > b.publishedAt.value
  }

  /** The table's own event of a message carries that message's reference. */
  ghost predicate Filed(events: Events) {
    forall ref <- events :: events[ref].ref == ref
  }

  /** One of the published follows, than which none was published later; none only when there are none. */
  ghost predicate IsLatestFollow(events: Events, did: string, target: string, found: Option<Event>) {
    match found
    case None => forall ref <- events :: !IsFollowOf(events[ref], did, target)
    case Some(e) =>
      && e.ref in events && events[e.ref] == e && IsFollowOf(e, did, target)
      && forall ref <- events :: IsFollowOf(events[ref], did, target) ==> !LaterThan(events[ref], e)
  }

  /** A row of the table that has the reference; none only when no row has it. */
  ghost predicate IsRowOf(rows: Rows, ref: string, found: Option<Message>) {
    match found
    case None => forall uri <- rows :: rows[uri].ref != Trim(ref)
    case Some(row) => row.uri in rows && rows[row.uri] == row && row.ref == Trim(ref)
  }

  /** The two queries answer, from tables filed by their keys, what they are asked for. */
  ghost predicate Honest(lookups: Lookups) {
    && (forall events: Events, did, target :: Filed(events) ==> IsLatestFollow(events, did, target, lookups.lastFollow(events, did, target)))
    && (forall rows: Rows, ref :: Keyed(rows) ==> IsRowOf(rows, ref, lookups.byRef(rows, ref)))
  }

  ghost function LatestAmong(events: Events, refs: set<string>): (found: Option<Event>)
    requires Filed(events) && refs <= events.Keys
    ensures found.None? <==> refs == {}
    ensures found.Some? ==> found.value.ref in refs && events[found.value.ref] == found.value
    ensures found.Some? ==> forall ref <- refs :: !LaterThan(events[ref], found.value)
    decreases |refs|
  {
    if refs == {} then None
    else
      var ref :| ref in refs;
      var rest := LatestAmong(events, refs - {ref});
      if rest.None? || LaterThan(events[ref], rest.value) then Some(events[ref]) else rest
  }

  ghost function LatestFollow(events: Events, did: string, target: string): Option<Event> {
    if Filed(events) then LatestAmong(events, set ref | ref in events && IsFollowOf(events[ref], did, target)) else None
  }

  ghost function SomeRowOf(rows: Rows, ref: string): Option<Message> {
    if uri :| uri in rows && rows[uri].ref == Trim(ref) then Some(rows[uri]) else None
  }

  /** There are such lookups. */
  lemma HonestLookupsExist()
    ensures exists lookups :: Honest(lookups)
  {
    var lookups := Lookups((rows, ref) => SomeRowOf(rows, ref), (events, did, target) => LatestFollow(events, did, target));
    forall events: Events, did, target | Filed(events)
      ensures IsLatestFollow(events, did, target, lookups.lastFollow(events, did, target))
    {
      LatestFollowIsLatest(events, did, target);
    }
    forall rows: Rows, ref | Keyed(rows) ensures IsRowOf(rows, ref, lookups.byRef(rows, ref)) {
      assert lookups.byRef(rows, ref) == SomeRowOf(rows, ref);
    }
    assert Honest(lookups);
  }

  lemma LatestFollowIsLatest(events: Events, did: string, target: string)
    requires Filed(events)
    ensures IsLatestFollow(events, did, target, LatestFollow(events, did, target))
  {
    var refs := set ref | ref in events && IsFollowOf(events[ref], did, target);
    assert forall ref <- events :: IsFollowOf(events[ref], did, target) ==> ref in refs;
  }

  /** A message that arrived, with its identifiers trimmed. */
  datatype Incoming = Incoming(seqNo: int, ref: string, author: string, sequence: Option<int>, raw: string)

  function BaseEvent(m: Incoming, did: string, action: Action): Event {
    Event(m.ref, m.author, m.sequence, m.seqNo, did, action, Waiting, 0, None, None, "", "", "", "", "", "", "", "", "", None, m.raw, "")
  }

  function Skip(event: Event, reason: string): Built {
    Asks(event.(state := Skipped, reason := reason), NoRecord, "")
  }

  function Defer(event: Event, reason: string): Built {
    Asks(event.(state := Deferred, reason := reason), NoRecord, "")
  }

  predicate Usable(target: Option<Message>) {
    target.Some? && !Blank(target.value.uri) && !Blank(target.value.cid)
  }

  function BuildReply(lookups: Lookups, rows: Rows, m: Incoming, mapping: Mapping, content: Ssb, refs: ReplyRefs): Built {
    var event := BaseEvent(m, mapping.did, ReplyAction).(collection := Some(PostType));
    if !mapping.replies then Skip(event, "action_disabled=reply")
    else
      var root := lookups.byRef(rows, refs.root);
      var parent := lookups.byRef(rows, refs.parent);
      var targeted := event.(targetRef := refs.parent);
      if !Usable(root) then Defer(targeted, "reply_root_unmapped=" + refs.root)
      else if !Usable(parent) then Defer(targeted, "reply_parent_unmapped=" + refs.parent)
      else
        Asks(targeted.(targetUri := parent.value.uri, targetCid := parent.value.cid, targetDid := root.value.did),
          PostRecord(content.text,
            Some(Thread(Strong(root.value.uri, root.value.cid), Strong(parent.value.uri, parent.value.cid))), [], 0), "")
  }

  function BuildPost(lookups: Lookups, rows: Rows, m: Incoming, mapping: Mapping, content: Ssb): Built {
    var refs := ReplyRefsOf(content);
    if refs.root != "" || refs.parent != "" then BuildReply(lookups, rows, m, mapping, content, refs)
    else
      var event := BaseEvent(m, mapping.did, PostAction).(collection := Some(PostType));
      if !mapping.posts then Skip(event, "action_disabled=post")
      else Asks(event, PostRecord(content.text, None, [], 0), "")
  }

  /** A repost or a vote, once it names a target: it needs the record behind it. */
  function BuildOnTarget(lookups: Lookups, rows: Rows, event: Event, targetRef: string, missing: string, like: bool): Built {
    var target := lookups.byRef(rows, targetRef);
    if !Usable(target) then Defer(event, missing + targetRef)
    else
      var subject := Strong(target.value.uri, target.value.cid);
      Asks(event.(targetRef := targetRef, targetUri := subject.uri, targetCid := subject.cid, targetDid := target.value.did),
        if like then LikeRecord(subject) else RepostRecord(subject), "")
  }

  function BuildRepost(lookups: Lookups, rows: Rows, m: Incoming, mapping: Mapping, content: Ssb): Built {
    var targetRef := if !Blank(content.repost) then Trim(content.repost) else Trim(content.share);
    var event := BaseEvent(m, mapping.did, RepostAction);
    if targetRef == "" then Skip(event, "missing_repost_target")
    else if !mapping.posts then Skip(event.(collection := Some(RepostType)), "action_disabled=post")
    else BuildOnTarget(lookups, rows, event.(collection := Some(RepostType)), targetRef, "repost_target_unmapped=", false)
  }

  function BuildVote(lookups: Lookups, rows: Rows, m: Incoming, mapping: Mapping, content: Ssb): Built {
    if content.vote.None? || content.vote.value.value <= 0.0 then AsksNothing
    else
      var targetRef := Trim(content.vote.value.link);
      var event := BaseEvent(m, mapping.did, VoteAction);
      if targetRef == "" then Skip(event, "missing_vote_target")
      else if !mapping.posts then Skip(event.(collection := Some(LikeType)), "action_disabled=like")
      else BuildOnTarget(lookups, rows, event.(collection := Some(LikeType)), targetRef, "vote_target_unmapped=", true)
  }

  function BuildAbout(m: Incoming, mapping: Mapping, content: Ssb): Built {
    var target := Trim(content.about);
    var event := BaseEvent(m, mapping.did, AboutAction);
    if target == "" || target != m.author then Skip(event, "about_not_self")
    else
      Asks(event.(collection := Some(ProfileType)),
        ProfileRecord(if content.name == "" then None else Some(content.name),
                      if content.description == "" then None else Some(content.description), false), "")
  }

  function BuildContact(lookups: Lookups, events: Events, m: Incoming, mapping: Mapping, content: Ssb,
                        didOf: string -> Option<string>): Built
  {
    var target := Trim(content.contact);
    var follow := BaseEvent(m, mapping.did, FollowAction);
    if target == "" then Defer(follow.(collection := Some(FollowType)), "missing_contact_feed")
    else if content.blocking then Skip(follow.(targetFeed := target), "unsupported_contact_block")
    else
      var did := didOf(target);
      var event := BaseEvent(m, mapping.did, if content.following then FollowAction else UnfollowAction).(
        targetFeed := target, targetDid := if did.Some? then did.value else "", collection := Some(FollowType));
      if !mapping.follows then Skip(event, "action_disabled=follow")
      else if did.None? || Blank(did.value) then Defer(event, "target_did_unmapped=" + target)
      else if content.following then Asks(event, FollowRecord(did.value), "")
      else
        var found := lookups.lastFollow(events, mapping.did, did.value);
        if found.None? || Blank(found.value.resultUri) then Defer(event, "follow_record_not_found=" + did.value)
        else
          Asks(event.(targetUri := found.value.resultUri, targetCid := found.value.resultCid), NoRecord, found.value.resultUri)
  }

  function Build(lookups: Lookups, events: Events, rows: Rows, m: Incoming, mapping: Mapping, content: Ssb,
                 didOf: string -> Option<string>): Built
  {
    match content.kind
    case PostKind => BuildPost(lookups, rows, m, mapping, content)
    case RepostKind => BuildRepost(lookups, rows, m, mapping, content)
    case VoteKind => BuildVote(lookups, rows, m, mapping, content)
    case AboutKind => BuildAbout(m, mapping, content)
    case ContactKind => BuildContact(lookups, events, m, mapping, content, didOf)
    case OtherKind => AsksNothing
  }

  /** Every event that is built names its message, its author and the author's account, and has an action. */
  predicate WellBuilt(built: Built, m: Incoming, mapping: Mapping) {
    built.Asks? ==>
      && built.event.ref == m.ref && built.event.author == m.author && built.event.did == mapping.did
      && built.event.rawSsb == m.raw && built.event.seqNo == m.seqNo && built.event.sequence == m.sequence
      && !built.event.action.NoAction?
      && (built.event.state.Waiting? || built.event.state.Deferred? || built.event.state.Skipped?)
      && built.event.attempts == 0
      && (built.event.state.Waiting? ==> built.event.collection.Some?)
  }

  lemma RepliesAreWell(lookups: Lookups, rows: Rows, m: Incoming, mapping: Mapping, content: Ssb, refs: ReplyRefs)
    ensures WellBuilt(BuildReply(lookups, rows, m, mapping, content, refs), m, mapping)
  {
  }

  lemma PostsAreWell(lookups: Lookups, rows: Rows, m: Incoming, mapping: Mapping, content: Ssb)
    ensures WellBuilt(BuildPost(lookups, rows, m, mapping, content), m, mapping)
  {
    var refs := ReplyRefsOf(content);
    if refs.root != "" || refs.parent != "" {
      RepliesAreWell(lookups, rows, m, mapping, content, refs);
    }
  }

  lemma RepostsAreWell(lookups: Lookups, rows: Rows, m: Incoming, mapping: Mapping, content: Ssb)
    ensures WellBuilt(BuildRepost(lookups, rows, m, mapping, content), m, mapping)
  {
    var targetRef := if !Blank(content.repost) then Trim(content.repost) else Trim(content.share);
    var event := BaseEvent(m, mapping.did, RepostAction).(collection := Some(RepostType));
    AnyOutcomeIsWell(event, "action_disabled=post", m, mapping);
    OnTargetIsWell(lookups, rows, event, targetRef, "repost_target_unmapped=", false, m, mapping);
  }

  lemma OnTargetIsWell(lookups: Lookups, rows: Rows, event: Event, targetRef: string, missing: string, like: bool, m: Incoming, mapping: Mapping)
    requires event.ref == m.ref && event.author == m.author && event.did == mapping.did && event.rawSsb == m.raw
    requires event.seqNo == m.seqNo && event.sequence == m.sequence
    requires !event.action.NoAction? && event.state.Waiting? && event.attempts == 0 && event.collection.Some?
    ensures WellBuilt(BuildOnTarget(lookups, rows, event, targetRef, missing, like), m, mapping)
  {
    AnyOutcomeIsWell(event, missing + targetRef, m, mapping);
  }

  lemma VotesAreWell(lookups: Lookups, rows: Rows, m: Incoming, mapping: Mapping, content: Ssb)
    ensures WellBuilt(BuildVote(lookups, rows, m, mapping, content), m, mapping)
  {
    if content.vote.Some? && content.vote.value.value > 0.0 {
      var event := BaseEvent(m, mapping.did, VoteAction).(collection := Some(LikeType));
      AnyOutcomeIsWell(event, "action_disabled=like", m, mapping);
      OnTargetIsWell(lookups, rows, event, Trim(content.vote.value.link), "vote_target_unmapped=", true, m, mapping);
    }
  }

  lemma AboutsAreWell(m: Incoming, mapping: Mapping, content: Ssb)
    ensures WellBuilt(BuildAbout(m, mapping, content), m, mapping)
  {
  }

  lemma ContactsAreWell(lookups: Lookups, events: Events, m: Incoming, mapping: Mapping, content: Ssb, didOf: string -> Option<string>)
    ensures WellBuilt(BuildContact(lookups, events, m, mapping, content, didOf), m, mapping)
  {
    var target := Trim(content.contact);
    if target == "" || content.blocking {
      assert WellBuilt(BuildContact(lookups, events, m, mapping, content, didOf), m, mapping);
    } else {
      var did := didOf(target);
      var event := BaseEvent(m, mapping.did, if content.following then FollowAction else UnfollowAction).(
        targetFeed := target, targetDid := if did.Some? then did.value else "", collection := Some(FollowType));
      AnyOutcomeIsWell(event, "action_disabled=follow", m, mapping);
      AnyOutcomeIsWell(event, "target_did_unmapped=" + target, m, mapping);
      if did.Some? {
        AnyOutcomeIsWell(event, "follow_record_not_found=" + did.value, m, mapping);
      }
    }
  }

  lemma AnyOutcomeIsWell(event: Event, reason: string, m: Incoming, mapping: Mapping)
    requires event.ref == m.ref && event.author == m.author && event.did == mapping.did && event.rawSsb == m.raw
    requires event.seqNo == m.seqNo && event.sequence == m.sequence
    requires !event.action.NoAction? && event.state.Waiting? && event.attempts == 0 && event.collection.Some?
    ensures WellBuilt(Skip(event, reason), m, mapping) && WellBuilt(Defer(event, reason), m, mapping)
  {
  }

  lemma BuildIsWell(lookups: Lookups, events: Events, rows: Rows, m: Incoming, mapping: Mapping, content: Ssb, didOf: string -> Option<string>)
    ensures WellBuilt(Build(lookups, events, rows, m, mapping, content, didOf), m, mapping)
  {
    match content.kind
    case PostKind => PostsAreWell(lookups, rows, m, mapping, content);
    case RepostKind => RepostsAreWell(lookups, rows, m, mapping, content);
    case VoteKind => VotesAreWell(lookups, rows, m, mapping, content);
    case AboutKind => AboutsAreWell(m, mapping, content);
    case ContactKind => ContactsAreWell(lookups, events, m, mapping, content, didOf);
    case OtherKind =>
  }

  /** The follow whose record an unfollow asks to delete, if it does. */
  ghost predicate DeletesLatest(events: Events, did: string, built: Built) {
    built.Asks? && built.event.state.Waiting? && built.event.action.UnfollowAction? ==>
      exists follow :: IsLatestFollow(events, did, built.event.targetDid, Some(follow)) && follow.resultUri == built.deleteUri
  }

  lemma ContactDeletesLatest(lookups: Lookups, events: Events, m: Incoming, mapping: Mapping, content: Ssb,
                             didOf: string -> Option<string>)
    requires Honest(lookups) && Filed(events)
    ensures DeletesLatest(events, mapping.did, BuildContact(lookups, events, m, mapping, content, didOf))
  {
    var built := BuildContact(lookups, events, m, mapping, content, didOf);
    if built.Asks? && built.event.state.Waiting? && built.event.action.UnfollowAction? {
      var found := lookups.lastFollow(events, mapping.did, built.event.targetDid);
      assert IsLatestFollow(events, mapping.did, built.event.targetDid, found);
      assert found == Some(found.value) && found.value.resultUri == built.deleteUri;
    }
  }

  /** Nothing but a contact message asks for an unfollow. */
  lemma OnlyContactsUnfollow(lookups: Lookups, events: Events, rows: Rows, m: Incoming, mapping: Mapping, content: Ssb,
                             didOf: string -> Option<string>)
    ensures var built := Build(lookups, events, rows, m, mapping, content, didOf);
      built.Asks? && built.event.action.UnfollowAction? ==> content.kind.ContactKind?
  {
  }

  /** An unfollow that is to be carried out deletes the record of the latest published follow by the same account, of the same target. */
  lemma UnfollowDeletesOwnFollow(lookups: Lookups, events: Events, rows: Rows, m: Incoming, mapping: Mapping, content: Ssb,
                                 didOf: string -> Option<string>)
    requires Honest(lookups) && Filed(events)
    ensures DeletesLatest(events, mapping.did, Build(lookups, events, rows, m, mapping, content, didOf))
  {
    ContactDeletesLatest(lookups, events, m, mapping, content, didOf);
    OnlyContactsUnfollow(lookups, events, rows, m, mapping, content, didOf);
  }

  /** Conversely, an allowed unfollow is carried out whenever such a follow exists, and otherwise is deferred. */
  lemma UnfollowFindsFollow(lookups: Lookups, events: Events, m: Incoming, mapping: Mapping, content: Ssb,
                            didOf: string -> Option<string>)
    requires Honest(lookups) && Filed(events)
    requires !Blank(content.contact) && !content.blocking && !content.following && mapping.follows
    requires didOf(Trim(content.contact)).Some? && !Blank(didOf(Trim(content.contact)).value)
    ensures var built := BuildContact(lookups, events, m, mapping, content, didOf);
      && built.Asks? && built.event.action.UnfollowAction? && built.event.targetDid == didOf(Trim(content.contact)).value
      && built.event.state == (if exists ref <- events :: IsFollowOf(events[ref], mapping.did, built.event.targetDid) then Waiting else Deferred)
  {
    var target := didOf(Trim(content.contact)).value;
    assert IsLatestFollow(events, mapping.did, target, lookups.lastFollow(events, mapping.did, target));
  }

  /** A strong reference to the record of a row with an SSB reference and an identifier. */
  ghost predicate Refers(rows: Rows, ref: string, strong: Strong) {
    strong.uri in rows && rows[strong.uri].ref == Trim(ref) && rows[strong.uri].cid == strong.cid && !Blank(strong.uri) && !Blank(strong.cid)
  }

  /**
   A reply that is to be carried out names, as its root and as its parent, records that the bridge has
   bridged; while no row has the reference of one of them, the reply is deferred.
   */
  lemma ReplyIsOnKnownRecords(lookups: Lookups, rows: Rows, m: Incoming, mapping: Mapping, content: Ssb)
    requires Honest(lookups) && Keyed(rows) && ReplyRefsOf(content).root != "" && mapping.replies
    ensures var built, refs := BuildPost(lookups, rows, m, mapping, content), ReplyRefsOf(content);
      && built.Asks? && built.event.action.ReplyAction?
      && (built.event.state.Waiting? ==>
            && built.record.PostRecord? && built.record.thread.Some?
            && Refers(rows, refs.root, built.record.thread.value.root) && Refers(rows, refs.parent, built.record.thread.value.parent))
      && ((forall uri <- rows :: rows[uri].ref != Trim(refs.root)) || (forall uri <- rows :: rows[uri].ref != Trim(refs.parent)) ==>
            built.event.state.Deferred?)
  {
    var refs := ReplyRefsOf(content);
    assert IsRowOf(rows, refs.root, lookups.byRef(rows, refs.root));
    assert IsRowOf(rows, refs.parent, lookups.byRef(rows, refs.parent));
  }

  /** A thread's two ends always stand in for each other: a reply names both or is no reply. */
  lemma ReplyNamesBoth(content: Ssb)
    ensures ReplyRefsOf(content).root == "" <==> ReplyRefsOf(content).parent == ""
    ensures ReplyRefsOf(content).root == ""
      <==> Blank(content.root) && Blank(content.branch)
           && (content.comment.Some? ==> Blank(content.comment.value.root) && forall r <- content.comment.value.previous :: Blank(r))
  {
    if content.comment.Some? {
      LastNonBlankIsEmpty(content.comment.value.previous);
    }
  }

  lemma {:induction false} LastNonBlankIsEmpty(refs: seq<string>)
    ensures LastNonBlank(refs) == "" <==> forall r <- refs :: Blank(r)
  {
    if refs != [] {
      var n := |refs| - 1;
      assert refs == refs[..n] + [refs[n]];
      LastNonBlankIsEmpty(refs[..n]);
    }
  }
}
